/** The threaded news list of ui/ui.go and ui/screen_news.go (the two files
  * carry the same code): buildThreadTree promotes orphans to roots, marks
  * articles that have replies, numbers each reply one deeper than its parent
  * and reverses the list; filterVisibleArticles lists the roots, each
  * followed by the replies below expanded articles; the list refresh clamps
  * the cursor. */
module ThreadTree {
  import opened Bytes

  /** newsArticleItem. */
  datatype Article = Article(id: nat, title: string, poster: string, date: seq<byte>,
                             parentID: nat, depth: int, isExpanded: bool, hasChildren: bool)

  // ---------------------------------------------------------------------
  // The links between articles

  /** An article's id and the id of the article it replies to (0 for none). */
  datatype Link = Link(id: nat, parent: nat)

  function Links(arts: seq<Article>): (r: seq<Link>)
    ensures |r| == |arts|
    ensures forall k :: 0 <= k < |arts| ==> r[k] == Link(arts[k].id, arts[k].parentID)
  {
    seq(|arts|, k requires 0 <= k < |arts| => Link(arts[k].id, arts[k].parentID))
  }

  /** validIDs. */
  function Ids(arts: seq<Article>): set<nat>
  {
    set k | 0 <= k < |arts| :: arts[k].id
  }

  predicate DistinctIds(L: seq<Link>)
  {
    forall i, j :: 0 <= i < |L| && 0 <= j < |L| && L[i].id == L[j].id ==> i == j
  }

  /** The first article carrying an id. */
  function IndexOf(L: seq<Link>, id: nat): (r: Option<nat>)
    ensures r.Some? ==> r.value < |L| && L[r.value].id == id
    ensures r.None? ==> forall k :: 0 <= k < |L| ==> L[k].id != id
  {
    if L == [] then None
    else if L[0].id == id then Some(0)
    else match IndexOf(L[1..], id)
      case None => None
      case Some(k) => Some(k + 1)
  }

  /** The article a reply answers, when it is listed. */
  function ParentIndex(L: seq<Link>, k: nat): (r: Option<nat>)
    requires k < |L|
    ensures r.Some? ==> r.value < |L| && L[k].parent != 0 && L[r.value].id == L[k].parent
  {
    if L[k].parent == 0 then None else IndexOf(L, L[k].parent)
  }

  /** With distinct ids a reply's parent is the article carrying its parent
    * id. */
  lemma ParentIndexUnique(L: seq<Link>, k: nat, j: nat)
    requires DistinctIds(L) && k < |L| && j < |L| && L[k].parent != 0 && L[j].id == L[k].parent
    ensures ParentIndex(L, k) == Some(j)
  {
  }

  /** The replies to id p among the first n articles, in list order: the
    * entries childrenMap[p] gets. Id 0 has none, since parent 0 marks a
    * root. */
  function KidsUpTo(L: seq<Link>, p: nat, n: nat): seq<nat>
    requires n <= |L|
  {
    if n == 0 then []
    else KidsUpTo(L, p, n - 1) + (if p != 0 && L[n - 1].parent == p then [n - 1] else [])
  }

  lemma {:induction false} KidsUpToMembers(L: seq<Link>, p: nat, n: nat)
    requires n <= |L|
    ensures forall c :: c in KidsUpTo(L, p, n) <==> 0 <= c < n && p != 0 && L[c].parent == p
    ensures forall i :: 0 <= i < |KidsUpTo(L, p, n)| ==> KidsUpTo(L, p, n)[i] < n
  {
    if n > 0 {
      KidsUpToMembers(L, p, n - 1);
    }
  }

  /** The replies to id p, in list order. */
  function Kids(L: seq<Link>, p: nat): (r: seq<nat>)
    ensures forall c :: c in r <==> 0 <= c < |L| && p != 0 && L[c].parent == p
    ensures forall i :: 0 <= i < |r| ==> r[i] < |L|
  {
    KidsUpToMembers(L, p, |L|);
    KidsUpTo(L, p, |L|)
  }

  /** Replies are counted from the links below n only. */
  lemma {:induction false} KidsUpToAgree(L1: seq<Link>, L2: seq<Link>, p: nat, n: nat)
    requires n <= |L1| && n <= |L2| && forall k :: 0 <= k < n ==> L1[k] == L2[k]
    ensures KidsUpTo(L1, p, n) == KidsUpTo(L2, p, n)
  {
    if n > 0 {
      KidsUpToAgree(L1, L2, p, n - 1);
    }
  }

  // ---------------------------------------------------------------------
  // Depth as the length of the walk up to a root

  /** The number of parent steps from article k up to a root, if a root is
    * reached within f steps. */
  function Walk(L: seq<Link>, k: nat, f: nat): Option<nat>
    requires k < |L|
    decreases f
  {
    if L[k].parent == 0 then Some(0)
    else if f == 0 then None
    else match ParentIndex(L, k)
      case None => None
      case Some(j) =>
        match Walk(L, j, f - 1)
        case None => None
        case Some(v) => Some(v + 1)
  }

  lemma {:induction false} WalkBound(L: seq<Link>, k: nat, f: nat)
    requires k < |L| && Walk(L, k, f).Some?
    ensures Walk(L, k, f).value <= f
    decreases f
  {
    if L[k].parent != 0 {
      WalkBound(L, ParentIndex(L, k).value, f - 1);
    }
  }

  /** More steps allowed find the same root at the same distance. */
  lemma {:induction false} WalkMono(L: seq<Link>, k: nat, f: nat, g: nat)
    requires k < |L| && f <= g && Walk(L, k, f).Some?
    ensures Walk(L, k, g) == Walk(L, k, f)
    decreases f
  {
    if L[k].parent != 0 {
      WalkMono(L, ParentIndex(L, k).value, f - 1, g - 1);
    }
  }

  /** v is article k's depth: its walk to a root takes exactly v steps. */
  predicate Correct(L: seq<Link>, k: nat, v: int)
    requires k < |L|
  {
    0 <= v <= |L| && Walk(L, k, v) == Some(v)
  }

  lemma CorrectUnique(L: seq<Link>, k: nat, v: int, w: int)
    requires k < |L| && Correct(L, k, v) && Correct(L, k, w)
    ensures v == w
  {
    if v <= w {
      WalkMono(L, k, v, w);
    } else {
      WalkMono(L, k, w, v);
    }
  }

  /** The article s parent steps above k. */
  function AncestorAt(L: seq<Link>, k: nat, s: nat): (r: Option<nat>)
    requires k < |L|
    ensures r.Some? ==> r.value < |L|
    decreases s
  {
    if s == 0 then Some(k)
    else match ParentIndex(L, k)
      case None => None
      case Some(j) => AncestorAt(L, j, s - 1)
  }

  /** s + 1 steps up are s steps up and then one more. */
  lemma {:induction false} AncestorLastStep(L: seq<Link>, k: nat, s: nat)
    requires k < |L| && AncestorAt(L, k, s + 1).Some?
    ensures AncestorAt(L, k, s).Some?
    ensures ParentIndex(L, AncestorAt(L, k, s).value) == AncestorAt(L, k, s + 1)
    decreases s
  {
    if s > 0 {
      AncestorLastStep(L, ParentIndex(L, k).value, s - 1);
    }
  }

  /** A walk of v steps ends at a root v steps up. */
  lemma {:induction false} WalkReachesRoot(L: seq<Link>, k: nat, f: nat)
    requires k < |L| && Walk(L, k, f).Some?
    ensures AncestorAt(L, k, Walk(L, k, f).value).Some?
    ensures L[AncestorAt(L, k, Walk(L, k, f).value).value].parent == 0
    decreases f
  {
    if L[k].parent != 0 {
      WalkReachesRoot(L, ParentIndex(L, k).value, f - 1);
    }
  }

  // ---------------------------------------------------------------------
  // The depth pass

  /** calculateDepth(x, d): each reply to x gets depth d, then its own
    * replies are numbered from d + 1. `fuel` bounds the recursion, which the
    * source leaves unbounded. */
  function Visit(L: seq<Link>, x: nat, d: nat, ds: seq<int>, fuel: nat): (r: seq<int>)
    requires |ds| == |L|
    ensures |r| == |L|
    decreases fuel, 1, 0
  {
    if fuel == 0 then ds else VisitKids(L, Kids(L, x), d, ds, fuel)
  }

  /** The loop of calculateDepth over the replies still to number. */
  function VisitKids(L: seq<Link>, kids: seq<nat>, d: nat, ds: seq<int>, fuel: nat): (r: seq<int>)
    requires |ds| == |L| && fuel >= 1 && forall i :: 0 <= i < |kids| ==> kids[i] < |L|
    ensures |r| == |L|
    decreases fuel, 0, |kids|
  {
    if kids == [] then ds
    else
      var c := kids[0];
      VisitKids(L, kids[1..], d, Visit(L, L[c].id, d + 1, ds[c := d], fuel - 1), fuel)
  }

  /** The root loop from article i on: each root gets depth 0 and its
    * replies are numbered from 1. */
  function Roots(L: seq<Link>, ds: seq<int>, i: nat): (r: seq<int>)
    requires i <= |L| && |ds| == |L|
    ensures |r| == |L|
    decreases |L| - i
  {
    if i == |L| then ds
    else Roots(L, if L[i].parent == 0 then Visit(L, L[i].id, 1, ds[i := 0], |L|) else ds, i + 1)
  }

  /** Every depth the pass writes is the article's true depth. */
  predicate Sound(L: seq<Link>, before: seq<int>, after: seq<int>)
  {
    |before| == |L| && |after| == |L|
    && forall k :: 0 <= k < |L| ==> after[k] == before[k] || Correct(L, k, after[k])
  }

  /** All articles 1 to f steps below article j have their true depth. */
  predicate Covered(L: seq<Link>, ds: seq<int>, j: nat, f: nat)
    requires |ds| == |L|
  {
    forall k, s :: 0 <= k < |L| && 1 <= s <= f && AncestorAt(L, k, s) == Some(j) ==> Correct(L, k, ds[k])
  }

  lemma CoveredStable(L: seq<Link>, ds: seq<int>, ds': seq<int>, j: nat, f: nat)
    requires |ds| == |L| && Covered(L, ds, j, f) && Sound(L, ds, ds')
    ensures Covered(L, ds', j, f)
  {
    forall k, s | 0 <= k < |L| && 1 <= s <= f && AncestorAt(L, k, s) == Some(j)
      ensures Correct(L, k, ds'[k])
    {
      if ds'[k] != ds[k] {
        assert Correct(L, k, ds'[k]);
      }
    }
  }

  /** Numbering the replies below article j (which has depth d - 1) writes
    * only true depths, and gives every article up to `fuel` levels below j
    * its true depth. */
  lemma {:induction false} VisitCorrect(L: seq<Link>, j: nat, d: nat, ds: seq<int>, fuel: nat)
    requires DistinctIds(L) && j < |L| && |ds| == |L| && d >= 1 && Correct(L, j, d - 1) && d + fuel <= |L| + 1
    ensures Sound(L, ds, Visit(L, L[j].id, d, ds, fuel))
    ensures Covered(L, Visit(L, L[j].id, d, ds, fuel), j, fuel)
    decreases fuel, 1, 0
  {
    if fuel > 0 {
      var kids := Kids(L, L[j].id);
      VisitKidsCorrect(L, j, kids, d, ds, fuel);
      var r := Visit(L, L[j].id, d, ds, fuel);
      forall k, s | 0 <= k < |L| && 1 <= s <= fuel && AncestorAt(L, k, s) == Some(j)
        ensures Correct(L, k, r[k])
      {
        AncestorLastStep(L, k, s - 1);
        var c := AncestorAt(L, k, s - 1).value;
        assert c in kids;
      }
    }
  }

  lemma {:induction false} VisitKidsCorrect(L: seq<Link>, j: nat, kids: seq<nat>, d: nat, ds: seq<int>, fuel: nat)
    requires DistinctIds(L) && j < |L| && |ds| == |L| && d >= 1 && fuel >= 1 && Correct(L, j, d - 1) && d + fuel <= |L| + 1
    requires forall i :: 0 <= i < |kids| ==> kids[i] < |L| && L[kids[i]].parent == L[j].id != 0
    ensures Sound(L, ds, VisitKids(L, kids, d, ds, fuel))
    ensures forall c :: c in kids ==> Correct(L, c, VisitKids(L, kids, d, ds, fuel)[c])
                                      && Covered(L, VisitKids(L, kids, d, ds, fuel), c, fuel - 1)
    decreases fuel, 0, |kids|
  {
    if kids != [] {
      var c := kids[0];
      ReplyCorrect(L, j, c, d);
      var ds1 := ds[c := d];
      VisitCorrect(L, c, d + 1, ds1, fuel - 1);
      var ds2 := Visit(L, L[c].id, d + 1, ds1, fuel - 1);
      var r := VisitKids(L, kids[1..], d, ds2, fuel);
      assert VisitKids(L, kids, d, ds, fuel) == r;
      VisitKidsCorrect(L, j, kids[1..], d, ds2, fuel);
      CoveredStable(L, ds2, r, c, fuel - 1);
      forall c' | c' in kids
        ensures Correct(L, c', r[c']) && Covered(L, r, c', fuel - 1)
      {
        if c' != c {
          assert c' in kids[1..];
        }
      }
    }
  }

  /** A reply to an article of depth d - 1 has depth d. */
  lemma ReplyCorrect(L: seq<Link>, j: nat, c: nat, d: nat)
    requires DistinctIds(L) && j < |L| && c < |L| && d >= 1 && d <= |L| && Correct(L, j, d - 1)
    requires L[c].parent == L[j].id != 0
    ensures Correct(L, c, d)
  {
    ParentIndexUnique(L, c, j);
  }

  /** After the root loop every root before i, and every article below one,
    * has its true depth; no other depth was changed. */
  lemma {:induction false} RootsCorrect(L: seq<Link>, ds: seq<int>, i: nat)
    requires DistinctIds(L) && i <= |L| && |ds| == |L|
    ensures Sound(L, ds, Roots(L, ds, i))
    ensures forall r :: i <= r < |L| && L[r].parent == 0 ==>
      Correct(L, r, Roots(L, ds, i)[r]) && Covered(L, Roots(L, ds, i), r, |L|)
    decreases |L| - i
  {
    if i < |L| {
      if L[i].parent == 0 {
        var ds1 := ds[i := 0];
        assert Correct(L, i, 0);
        VisitCorrect(L, i, 1, ds1, |L|);
        var ds2 := Visit(L, L[i].id, 1, ds1, |L|);
        assert Correct(L, i, ds2[i]);
        RootsCorrect(L, ds2, i + 1);
        CoveredStable(L, ds2, Roots(L, ds2, i + 1), i, |L|);
      } else {
        RootsCorrect(L, ds, i + 1);
      }
    }
  }

  /** The depth pass gives every article that reaches a root its distance
    * to it, and leaves the depth of any other article as it was. */
  lemma RootsGiveDepths(L: seq<Link>, ds: seq<int>, k: nat)
    requires DistinctIds(L) && |ds| == |L| && k < |L|
    ensures Walk(L, k, |L|).Some? ==> Roots(L, ds, 0)[k] == Walk(L, k, |L|).value
    ensures Walk(L, k, |L|).None? ==> Roots(L, ds, 0)[k] == ds[k]
  {
    RootsCorrect(L, ds, 0);
    var R := Roots(L, ds, 0);
    if Walk(L, k, |L|).Some? {
      var v := Walk(L, k, |L|).value;
      WalkBound(L, k, |L|);
      WalkReachesRoot(L, k, |L|);
      var root := AncestorAt(L, k, v).value;
      assert Correct(L, k, R[k]);
      WalkMono(L, k, R[k], |L|);
    } else if R[k] != ds[k] {
      WalkMono(L, k, R[k], |L|);
    }
  }

  // ---------------------------------------------------------------------
  // buildThreadTree as a function of its input

  function PromoteOne(x: Article, ids: set<nat>): Article
  {
    if x.parentID != 0 && x.parentID !in ids then x.(parentID := 0) else x
  }

  function Promoted(A: seq<Article>, ids: set<nat>): (r: seq<Article>)
    ensures |r| == |A| && forall k :: 0 <= k < |A| ==> r[k] == PromoteOne(A[k], ids)
  {
    seq(|A|, k requires 0 <= k < |A| => PromoteOne(A[k], ids))
  }

  function Marked(A: seq<Article>, L: seq<Link>): (r: seq<Article>)
    ensures |r| == |A| && forall k :: 0 <= k < |A| ==> r[k] == A[k].(hasChildren := |Kids(L, A[k].id)| > 0)
  {
    seq(|A|, k requires 0 <= k < |A| => A[k].(hasChildren := |Kids(L, A[k].id)| > 0))
  }

  function Depths(A: seq<Article>): (r: seq<int>)
    ensures |r| == |A| && forall k :: 0 <= k < |A| ==> r[k] == A[k].depth
  {
    seq(|A|, k requires 0 <= k < |A| => A[k].depth)
  }

  function WithDepths(A: seq<Article>, ds: seq<int>): (r: seq<Article>)
    requires |ds| == |A|
    ensures |r| == |A| && forall k :: 0 <= k < |A| ==> r[k] == A[k].(depth := ds[k])
  {
    seq(|A|, k requires 0 <= k < |A| => A[k].(depth := ds[k]))
  }

  function Reversed<T>(s: seq<T>): (r: seq<T>)
    ensures |r| == |s| && forall k :: 0 <= k < |s| ==> r[k] == s[|s| - 1 - k]
  {
    seq(|s|, k requires 0 <= k < |s| => s[|s| - 1 - k])
  }

  /** The links after orphan promotion. */
  function TreeLinks(A: seq<Article>): (r: seq<Link>)
    ensures |r| == |A|
    ensures forall k :: 0 <= k < |A| ==> r[k] == Link(A[k].id, PromoteOne(A[k], Ids(A)).parentID)
  {
    Links(Promoted(A, Ids(A)))
  }

  /** The depths the root loop leaves. */
  function TreeDepths(A: seq<Article>): (r: seq<int>)
    ensures |r| == |A|
  {
    Roots(TreeLinks(A), Depths(A), 0)
  }

  /** The list buildThreadTree computes, before its final reversal. */
  function Threaded(A: seq<Article>): (r: seq<Article>)
    ensures |r| == |A|
    ensures forall k :: 0 <= k < |A| ==>
      r[k] == A[k].(parentID := TreeLinks(A)[k].parent, hasChildren := |Kids(TreeLinks(A), A[k].id)| > 0,
                    depth := TreeDepths(A)[k])
  {
    WithDepths(Marked(Promoted(A, Ids(A)), TreeLinks(A)), TreeDepths(A))
  }

  predicate HasReply(A: seq<Article>, id: nat)
  {
    exists c :: 0 <= c < |A| && A[c].parentID == id
  }

  /** An article keeps its parent exactly when that parent is listed, and
    * has replies exactly when some article names it as parent. */
  lemma ThreadedLinks(A: seq<Article>, k: nat)
    requires k < |A|
    ensures Threaded(A)[k].parentID == if A[k].parentID in Ids(A) then A[k].parentID else 0
    ensures Threaded(A)[k].hasChildren <==> A[k].id != 0 && HasReply(A, A[k].id)
  {
    var L := TreeLinks(A);
    if A[k].id != 0 && HasReply(A, A[k].id) {
      var c :| 0 <= c < |A| && A[c].parentID == A[k].id;
      assert A[k].id in Ids(A);
      assert c in Kids(L, A[k].id);
    }
    if |Kids(L, A[k].id)| > 0 {
      var c := Kids(L, A[k].id)[0];
      assert c in Kids(L, A[k].id);
    }
  }

  /** With distinct ids, a root gets depth 0 and every article whose chain
    * of parents reaches a root gets the length of that chain; so a reply
    * is one deeper than its parent. An article on a cycle of parents keeps
    * its depth. */
  lemma ThreadedDepths(A: seq<Article>, k: nat)
    requires k < |A| && DistinctIds(TreeLinks(A))
    ensures Walk(TreeLinks(A), k, |A|).Some? ==> Threaded(A)[k].depth == Walk(TreeLinks(A), k, |A|).value
    ensures Walk(TreeLinks(A), k, |A|).None? ==> Threaded(A)[k].depth == A[k].depth
    ensures Threaded(A)[k].parentID == 0 ==> Threaded(A)[k].depth == 0
  {
    RootsGiveDepths(TreeLinks(A), Depths(A), k);
  }

  /** A reply to an article whose depth is below the number of articles is
    * one level deeper than its parent. */
  lemma ReplyOneDeeper(A: seq<Article>, k: nat, j: nat)
    requires k < |A| && j < |A| && DistinctIds(TreeLinks(A))
    requires Threaded(A)[k].parentID != 0 && A[j].id == Threaded(A)[k].parentID
    requires Walk(TreeLinks(A), j, |A|).Some? && Walk(TreeLinks(A), j, |A|).value < |A|
    ensures Threaded(A)[k].depth == Threaded(A)[j].depth + 1
  {
    WalkStep(TreeLinks(A), k, j);
    ThreadedDepths(A, k);
    ThreadedDepths(A, j);
  }

  /** A walk that takes v steps also succeeds with exactly v allowed. */
  lemma {:induction false} WalkExact(L: seq<Link>, k: nat, f: nat)
    requires k < |L| && Walk(L, k, f).Some?
    ensures Walk(L, k, Walk(L, k, f).value) == Walk(L, k, f)
    decreases f
  {
    if L[k].parent != 0 {
      WalkExact(L, ParentIndex(L, k).value, f - 1);
    }
  }

  /** A reply's walk is one step longer than its parent's. */
  lemma WalkStep(L: seq<Link>, k: nat, j: nat)
    requires DistinctIds(L) && k < |L| && j < |L| && L[k].parent != 0 && L[j].id == L[k].parent
    requires Walk(L, j, |L|).Some? && Walk(L, j, |L|).value < |L|
    ensures Walk(L, k, |L|) == Some(Walk(L, j, |L|).value + 1)
  {
    var v := Walk(L, j, |L|).value;
    ParentIndexUnique(L, k, j);
    WalkExact(L, j, |L|);
    assert Walk(L, k, v + 1) == Some(v + 1);
    WalkMono(L, k, v + 1, |L|);
  }

  function ChildrenOfId(children: map<nat, seq<nat>>, p: nat): seq<nat>
  {
    if p in children then children[p] else []
  }

  /** childrenMap: the replies to each id, in list order. */
  ghost predicate ChildrenMap(children: map<nat, seq<nat>>, L: seq<Link>)
  {
    forall p :: ChildrenOfId(children, p) == Kids(L, p)
  }

  /** Reversing keeps every article, each as often as before. */
  lemma {:induction false} ReversedPermutes<T>(s: seq<T>)
    ensures multiset(Reversed(s)) == multiset(s)
    decreases |s|
  {
    if |s| > 0 {
      ReversedPermutes(s[1..]);
      assert Reversed(s) == Reversed(s[1..]) + [s[0]];
      assert s == [s[0]] + s[1..];
    }
  }

  // ---------------------------------------------------------------------
  // buildThreadTree on the slice itself

  /** buildThreadTree: the list is updated in place and then reversed, so
    * the newest articles come first. */
  method BuildThreadTree(a: array<Article>)
    modifies a
    ensures a[..] == Reversed(Threaded(old(a[..])))
  {
    ghost var A := a[..];
    var validIDs := CollectIds(a);
    var childrenMap := PromoteOrphans(a, validIDs);
    MarkParents(a, TreeLinks(A), childrenMap);
    assert Depths(a[..]) == Depths(A);
    AssignDepths(a, TreeLinks(A), childrenMap);
    assert a[..] == Threaded(A);
    ReverseArticles(a);
  }

  /** The set of listed ids. */
  method CollectIds(a: array<Article>) returns (ids: set<nat>)
    ensures ids == Ids(a[..])
  {
    ids := {};
    for i := 0 to a.Length
      invariant ids == Ids(a[..i])
    {
      assert Ids(a[..i + 1]) == Ids(a[..i]) + {a[i].id} by {
        assert a[..i + 1] == a[..i] + [a[i]];
      }
      ids := ids + {a[i].id};
    }
    assert a[..a.Length] == a[..];
  }

  /** The first pass: an article whose parent is not listed becomes a root;
    * every other reply is entered in childrenMap under its parent. */
  method PromoteOrphans(a: array<Article>, validIDs: set<nat>) returns (childrenMap: map<nat, seq<nat>>)
    modifies a
    ensures a[..] == Promoted(old(a[..]), validIDs)
    ensures ChildrenMap(childrenMap, Links(a[..]))
  {
    ghost var A := a[..];
    ghost var L := Links(Promoted(A, validIDs));
    childrenMap := map[];
    for i := 0 to a.Length
      invariant forall k :: 0 <= k < i ==> a[k] == PromoteOne(A[k], validIDs)
      invariant forall k :: i <= k < a.Length ==> a[k] == A[k]
      invariant forall p :: ChildrenOfId(childrenMap, p) == KidsUpTo(L, p, i)
    {
      ghost var before := childrenMap;
      childrenMap := EnterArticle(a, i, validIDs, childrenMap);
      ChildrenStep(before, childrenMap, L, i);
    }
    assert a[..] == Promoted(A, validIDs);
  }

  /** One step of the first pass: article i becomes a root when its parent
    * is not listed, or is entered under its listed parent. */
  method EnterArticle(a: array<Article>, i: nat, validIDs: set<nat>, childrenMap: map<nat, seq<nat>>)
    returns (entered: map<nat, seq<nat>>)
    requires i < a.Length
    modifies a
    ensures a[i] == PromoteOne(old(a[i]), validIDs)
    ensures forall k :: 0 <= k < a.Length && k != i ==> a[k] == old(a[k])
    ensures entered == if a[i].parentID == 0 then childrenMap
                       else childrenMap[a[i].parentID := ChildrenOfId(childrenMap, a[i].parentID) + [i]]
  {
    entered := childrenMap;
    var parentID := a[i].parentID;
    if parentID != 0 {
      if parentID !in validIDs {
        a[i] := a[i].(parentID := 0);
      } else {
        entered := childrenMap[parentID := ChildrenOfId(childrenMap, parentID) + [i]];
      }
    }
  }

  /** Entering article i under its parent extends childrenMap by one pass. */
  lemma ChildrenStep(before: map<nat, seq<nat>>, after: map<nat, seq<nat>>, L: seq<Link>, i: nat)
    requires i < |L| && forall p :: ChildrenOfId(before, p) == KidsUpTo(L, p, i)
    requires after == if L[i].parent == 0 then before
                      else before[L[i].parent := ChildrenOfId(before, L[i].parent) + [i]]
    ensures forall p :: ChildrenOfId(after, p) == KidsUpTo(L, p, i + 1)
  {
    forall p
      ensures ChildrenOfId(after, p) == KidsUpTo(L, p, i + 1)
    {
      assert ChildrenOfId(before, p) == KidsUpTo(L, p, i);
    }
  }

  /** The second pass: an article has replies when childrenMap lists some. */
  method MarkParents(a: array<Article>, ghost L: seq<Link>, childrenMap: map<nat, seq<nat>>)
    requires ChildrenMap(childrenMap, L)
    modifies a
    ensures a[..] == Marked(old(a[..]), L)
  {
    for i := 0 to a.Length
      invariant forall k :: 0 <= k < i ==> a[k] == old(a[k]).(hasChildren := |Kids(L, old(a[k]).id)| > 0)
      invariant forall k :: i <= k < a.Length ==> a[k] == old(a[k])
    {
      a[i] := a[i].(hasChildren := |ChildrenOfId(childrenMap, a[i].id)| > 0);
    }
  }

  /** The articles with their depths blanked: what the depth pass keeps. */
  function Shape(arts: seq<Article>): (r: seq<Article>)
    ensures |r| == |arts| && forall k :: 0 <= k < |arts| ==> r[k] == arts[k].(depth := 0)
  {
    seq(|arts|, k requires 0 <= k < |arts| => arts[k].(depth := 0))
  }

  lemma ShapeKeepsAllButDepth(A: seq<Article>, B: seq<Article>)
    requires Shape(A) == Shape(B)
    ensures B == WithDepths(A, Depths(B)) && Links(B) == Links(A)
  {
    assert |A| == |Shape(A)|;
    forall k | 0 <= k < |A|
      ensures B[k] == A[k].(depth := B[k].depth)
    {
      assert Shape(A)[k] == Shape(B)[k];
    }
  }

  /** The root loop: each root gets depth 0 and calculateDepth numbers the
    * replies below it. */
  method AssignDepths(a: array<Article>, ghost L: seq<Link>, childrenMap: map<nat, seq<nat>>)
    requires Links(a[..]) == L && ChildrenMap(childrenMap, L)
    modifies a
    ensures a[..] == WithDepths(old(a[..]), Roots(L, Depths(old(a[..])), 0))
  {
    ghost var A := a[..];
    for i := 0 to a.Length
      invariant Shape(a[..]) == Shape(A)
      invariant Roots(L, Depths(A), 0) == Roots(L, Depths(a[..]), i)
    {
      ShapeKeepsAllButDepth(A, a[..]);
      if a[i].parentID == 0 {
        SetDepth(a, i, 0);
        CalculateDepth(a, L, childrenMap, a[i].id, 1, a.Length);
      }
    }
    ShapeKeepsAllButDepth(A, a[..]);
  }

  /** articles[c].depth = v. */
  method SetDepth(a: array<Article>, c: nat, v: int)
    requires c < a.Length
    modifies a
    ensures Shape(a[..]) == Shape(old(a[..]))
    ensures Depths(a[..]) == Depths(old(a[..]))[c := v]
  {
    a[c] := a[c].(depth := v);
  }

  /** calculateDepth: every reply to articleID gets currentDepth, and the
    * replies below it are numbered from currentDepth + 1. */
  method CalculateDepth(a: array<Article>, ghost L: seq<Link>, childrenMap: map<nat, seq<nat>>,
                        articleID: nat, currentDepth: nat, fuel: nat)
    requires Links(a[..]) == L && ChildrenMap(childrenMap, L)
    modifies a
    ensures Shape(a[..]) == Shape(old(a[..]))
    ensures Depths(a[..]) == Visit(L, articleID, currentDepth, old(Depths(a[..])), fuel)
    decreases fuel, 1
  {
    if fuel > 0 {
      var kids := ChildrenOfId(childrenMap, articleID);
      ghost var A := a[..];
      for m := 0 to |kids|
        invariant Shape(a[..]) == Shape(A)
        invariant VisitKids(L, kids, currentDepth, Depths(A), fuel) == VisitKids(L, kids[m..], currentDepth, Depths(a[..]), fuel)
      {
        ShapeKeepsAllButDepth(A, a[..]);
        VisitKidsStep(L, kids, m, currentDepth, Depths(a[..]), fuel);
        NumberReply(a, L, childrenMap, kids[m], currentDepth, fuel);
      }
    }
  }

  /** The body of calculateDepth's loop: the reply gets currentDepth and
    * the replies to it are numbered from currentDepth + 1. */
  method NumberReply(a: array<Article>, ghost L: seq<Link>, childrenMap: map<nat, seq<nat>>,
                     childIdx: nat, currentDepth: nat, fuel: nat)
    requires childIdx < a.Length && fuel >= 1
    requires Links(a[..]) == L && ChildrenMap(childrenMap, L)
    modifies a
    ensures Shape(a[..]) == Shape(old(a[..]))
    ensures Depths(a[..]) == Visit(L, L[childIdx].id, currentDepth + 1, old(Depths(a[..]))[childIdx := currentDepth], fuel - 1)
    decreases fuel, 0
  {
    ghost var A := a[..];
    SetDepth(a, childIdx, currentDepth);
    ShapeKeepsAllButDepth(A, a[..]);
    CalculateDepth(a, L, childrenMap, a[childIdx].id, currentDepth + 1, fuel - 1);
  }

  /** One turn of calculateDepth's loop. */
  lemma VisitKidsStep(L: seq<Link>, kids: seq<nat>, m: nat, d: nat, ds: seq<int>, fuel: nat)
    requires |ds| == |L| && fuel >= 1 && m < |kids| && forall i :: 0 <= i < |kids| ==> kids[i] < |L|
    ensures VisitKids(L, kids[m..], d, ds, fuel)
         == VisitKids(L, kids[m + 1..], d, Visit(L, L[kids[m]].id, d + 1, ds[kids[m] := d], fuel - 1), fuel)
  {
    assert kids[m..][1..] == kids[m + 1..];
  }

  /** slices.Reverse. */
  method ReverseArticles(a: array<Article>)
    modifies a
    ensures a[..] == Reversed(old(a[..]))
  {
    var i, j := 0, a.Length - 1;
    while i < j
      invariant 0 <= i <= a.Length && j == a.Length - 1 - i && i <= j + 1
      invariant forall k :: 0 <= k < i || j < k < a.Length ==> a[k] == old(a[a.Length - 1 - k])
      invariant forall k :: i <= k <= j ==> a[k] == old(a[k])
    {
      a[i], a[j] := a[j], a[i];
      i, j := i + 1, j - 1;
    }
  }

  // ---------------------------------------------------------------------
  // filterVisibleArticles

  /** The replies to id p among the first n articles, as childrenMap holds
    * them. */
  function RepliesUpTo(arts: seq<Article>, p: nat, n: nat): seq<Article>
    requires n <= |arts|
  {
    if n == 0 then []
    else RepliesUpTo(arts, p, n - 1) + (if p != 0 && arts[n - 1].parentID == p then [arts[n - 1]] else [])
  }

  lemma {:induction false} RepliesUpToMembers(arts: seq<Article>, p: nat, n: nat)
    requires n <= |arts|
    ensures forall x :: x in RepliesUpTo(arts, p, n) ==> x in arts[..n] && p != 0 && x.parentID == p
  {
    if n > 0 {
      RepliesUpToMembers(arts, p, n - 1);
      assert arts[..n] == arts[..n - 1] + [arts[n - 1]];
    }
  }

  /** The replies to id p, in list order. */
  function Replies(arts: seq<Article>, p: nat): (r: seq<Article>)
    ensures forall x :: x in r ==> x in arts && p != 0 && x.parentID == p
  {
    RepliesUpToMembers(arts, p, |arts|);
    assert arts[..|arts|] == arts;
    RepliesUpTo(arts, p, |arts|)
  }

  function RepliesOfId(childrenMap: map<nat, seq<Article>>, p: nat): seq<Article>
  {
    if p in childrenMap then childrenMap[p] else []
  }

  /** addArticleAndChildren(x): x, then, when x is expanded, each reply with
    * the replies shown below it. `fuel` bounds the recursion, which the
    * source leaves unbounded. */
  function Subtree(arts: seq<Article>, expanded: set<nat>, x: Article, fuel: nat): seq<Article>
    decreases fuel, 0, 0
  {
    [x] + (if x.id in expanded && fuel > 0 then Subtrees(arts, expanded, Replies(arts, x.id), fuel - 1) else [])
  }

  /** The subtrees of a list of replies, one after the other. */
  function Subtrees(arts: seq<Article>, expanded: set<nat>, xs: seq<Article>, fuel: nat): seq<Article>
    decreases fuel, 1, |xs|
  {
    if xs == [] then []
    else Subtrees(arts, expanded, xs[..|xs| - 1], fuel) + Subtree(arts, expanded, xs[|xs| - 1], fuel)
  }

  /** The visible list built from the roots among the first n articles. */
  function VisibleUpTo(arts: seq<Article>, expanded: set<nat>, n: nat): seq<Article>
    requires n <= |arts|
  {
    if n == 0 then []
    else VisibleUpTo(arts, expanded, n - 1)
         + (if arts[n - 1].parentID == 0 then Subtree(arts, expanded, arts[n - 1], |arts|) else [])
  }

  /** filterVisibleArticles' result: each root in list order, each followed
    * by what is shown below it. */
  function Visible(arts: seq<Article>, expanded: set<nat>): seq<Article>
  {
    VisibleUpTo(arts, expanded, |arts|)
  }

  /** The roots of a list, in order. */
  function RootArticles(arts: seq<Article>): seq<Article>
  {
    if arts == [] then []
    else RootArticles(arts[..|arts| - 1]) + (if arts[|arts| - 1].parentID == 0 then [arts[|arts| - 1]] else [])
  }

  lemma {:induction false} RootArticlesAppend(s: seq<Article>, t: seq<Article>)
    ensures RootArticles(s + t) == RootArticles(s) + RootArticles(t)
    decreases |t|
  {
    if t != [] {
      RootArticlesAppend(s, t[..|t| - 1]);
      assert (s + t)[..|s + t| - 1] == s + t[..|t| - 1];
    } else {
      assert s + t == s;
    }
  }

  /** Below its head a subtree holds only replies whose parent is expanded,
    * all taken from the list. */
  lemma {:induction false} SubtreeShape(arts: seq<Article>, expanded: set<nat>, x: Article, fuel: nat)
    ensures Subtree(arts, expanded, x, fuel)[0] == x
    ensures forall i :: 1 <= i < |Subtree(arts, expanded, x, fuel)| ==>
      Subtree(arts, expanded, x, fuel)[i] in arts && Subtree(arts, expanded, x, fuel)[i].parentID in expanded
      && Subtree(arts, expanded, x, fuel)[i].parentID != 0
    decreases fuel, 0, 0
  {
    if x.id in expanded && fuel > 0 {
      SubtreesShape(arts, expanded, Replies(arts, x.id), fuel - 1, x.id);
    }
  }

  lemma {:induction false} SubtreesShape(arts: seq<Article>, expanded: set<nat>, xs: seq<Article>, fuel: nat, p: nat)
    requires p in expanded
    requires forall x :: x in xs ==> x in arts && p != 0 && x.parentID == p
    ensures forall i :: 0 <= i < |Subtrees(arts, expanded, xs, fuel)| ==>
      Subtrees(arts, expanded, xs, fuel)[i] in arts && Subtrees(arts, expanded, xs, fuel)[i].parentID in expanded
      && Subtrees(arts, expanded, xs, fuel)[i].parentID != 0
    decreases fuel, 1, |xs|
  {
    if xs != [] {
      var last := xs[|xs| - 1];
      assert last in xs;
      SubtreesShape(arts, expanded, xs[..|xs| - 1], fuel, p);
      SubtreeShape(arts, expanded, last, fuel);
    }
  }

  /** A subtree headed by a root holds exactly one root: its head. */
  lemma SubtreeRoots(arts: seq<Article>, expanded: set<nat>, x: Article, fuel: nat)
    requires x.parentID == 0
    ensures RootArticles(Subtree(arts, expanded, x, fuel)) == [x]
  {
    var t := Subtree(arts, expanded, x, fuel);
    SubtreeShape(arts, expanded, x, fuel);
    RootArticlesAppend([x], t[1..]);
    assert t == [x] + t[1..];
    NoRoots(t[1..]);
    assert RootArticles([x]) == RootArticles([]) + [x];
  }

  lemma {:induction false} NoRoots(s: seq<Article>)
    requires forall i :: 0 <= i < |s| ==> s[i].parentID != 0
    ensures RootArticles(s) == []
    decreases |s|
  {
    if s != [] {
      NoRoots(s[..|s| - 1]);
    }
  }

  /** The visible list keeps the roots of the list, in their order, and
    * shows a reply only when its parent is expanded; every entry comes from
    * the list. */
  lemma {:induction false} VisibleUpToShape(arts: seq<Article>, expanded: set<nat>, n: nat)
    requires n <= |arts|
    ensures RootArticles(VisibleUpTo(arts, expanded, n)) == RootArticles(arts[..n])
    ensures forall v :: v in VisibleUpTo(arts, expanded, n) ==>
      v in arts && (v.parentID == 0 || v.parentID in expanded)
  {
    if n > 0 {
      VisibleUpToShape(arts, expanded, n - 1);
      var x := arts[n - 1];
      var prev := VisibleUpTo(arts, expanded, n - 1);
      var added := if x.parentID == 0 then Subtree(arts, expanded, x, |arts|) else [];
      RootArticlesAppend(prev, added);
      RootArticlesAppend(arts[..n - 1], [x]);
      assert arts[..n] == arts[..n - 1] + [x];
      assert RootArticles([x]) == RootArticles([]) + (if x.parentID == 0 then [x] else []);
      if x.parentID == 0 {
        SubtreeRoots(arts, expanded, x, |arts|);
        SubtreeShape(arts, expanded, x, |arts|);
        forall v | v in added
          ensures v in arts && (v.parentID == 0 || v.parentID in expanded)
        {
          var i :| 0 <= i < |added| && added[i] == v;
          if i == 0 {
            assert v == x && x in arts;
          }
        }
      } else {
        assert RootArticles(added) == [];
      }
    }
  }

  /** filterVisibleArticles lists the roots in list order, every entry
    * comes from the list, and every reply comes after an earlier entry that
    * is its parent and is expanded (children after their parent). */
  lemma VisibleShape(arts: seq<Article>, expanded: set<nat>)
    ensures RootArticles(Visible(arts, expanded)) == RootArticles(arts)
    ensures forall v :: v in Visible(arts, expanded) ==> v in arts && (v.parentID == 0 || v.parentID in expanded)
    ensures forall i :: 0 <= i < |Visible(arts, expanded)| && Visible(arts, expanded)[i].parentID != 0 ==>
              ParentShownBefore(Visible(arts, expanded), expanded, i)
  {
    VisibleUpToShape(arts, expanded, |arts|);
    VisibleUpToParentsBefore(arts, expanded, |arts|);
    assert arts[..|arts|] == arts;
  }

  /** With nothing expanded only the roots are shown, in list order. */
  lemma {:induction false} NothingExpandedShowsRoots(arts: seq<Article>, n: nat)
    requires n <= |arts|
    ensures VisibleUpTo(arts, {}, n) == RootArticles(arts[..n])
  {
    if n > 0 {
      NothingExpandedShowsRoots(arts, n - 1);
      assert arts[..n][..n - 1] == arts[..n - 1];
    }
  }

  /** filterVisibleArticles. */
  method FilterVisibleArticles(articles: seq<Article>, expanded: set<nat>) returns (visible: seq<Article>)
    ensures visible == Visible(articles, expanded)
  {
    var childrenMap: map<nat, seq<Article>> := map[];
    for i := 0 to |articles|
      invariant forall p :: RepliesOfId(childrenMap, p) == RepliesUpTo(articles, p, i)
    {
      var art := articles[i];
      if art.parentID != 0 {
        childrenMap := childrenMap[art.parentID := RepliesOfId(childrenMap, art.parentID) + [art]];
      }
    }
    visible := [];
    for i := 0 to |articles|
      invariant visible == VisibleUpTo(articles, expanded, i)
    {
      if articles[i].parentID == 0 {
        visible := AddArticleAndChildren(articles, childrenMap, expanded, articles[i], visible, |articles|);
      }
    }
  }

  /** addArticleAndChildren: appends the article and, when it is expanded,
    * each of its replies with what is shown below them. */
  method AddArticleAndChildren(ghost arts: seq<Article>, childrenMap: map<nat, seq<Article>>, expanded: set<nat>,
                               art: Article, visible: seq<Article>, fuel: nat) returns (out: seq<Article>)
    requires forall p :: RepliesOfId(childrenMap, p) == RepliesUpTo(arts, p, |arts|)
    ensures out == visible + Subtree(arts, expanded, art, fuel)
    decreases fuel
  {
    out := visible + [art];
    if art.id in expanded && fuel > 0 {
      var children := RepliesOfId(childrenMap, art.id);
      assert children == Replies(arts, art.id);
      for k := 0 to |children|
        invariant out == visible + [art] + Subtrees(arts, expanded, children[..k], fuel - 1)
      {
        out := AddArticleAndChildren(arts, childrenMap, expanded, children[k], out, fuel - 1);
        SubtreesStep(arts, expanded, children, k, fuel - 1, visible + [art]);
      }
      assert children[..|children|] == children;
    }
  }

  /** One turn of addArticleAndChildren's loop. */
  lemma SubtreesStep(arts: seq<Article>, expanded: set<nat>, xs: seq<Article>, k: nat, fuel: nat, front: seq<Article>)
    requires k < |xs|
    ensures front + Subtrees(arts, expanded, xs[..k], fuel) + Subtree(arts, expanded, xs[k], fuel)
         == front + Subtrees(arts, expanded, xs[..k + 1], fuel)
  {
    assert xs[..k + 1][..k] == xs[..k];
  }

  // ---------------------------------------------------------------------
  // refreshNewsArticleList

  /** The list items: each visible article marked with its expansion. */
  function ListItems(visible: seq<Article>, expanded: set<nat>): (r: seq<Article>)
    ensures |r| == |visible|
    ensures forall i :: 0 <= i < |r| ==> r[i] == visible[i].(isExpanded := visible[i].id in expanded)
  {
    seq(|visible|, i requires 0 <= i < |visible| => visible[i].(isExpanded := visible[i].id in expanded))
  }

  /** The cursor after the refresh: an index past the end moves to the last
    * item; with no items (or a negative index) nothing is selected. */
  function RefreshedCursor(current: int, count: nat): (r: Option<nat>)
    ensures r.Some? <==> count > 0 && current >= 0
    ensures r.Some? ==> r.value < count
    ensures r.Some? && current < count ==> r.value == current
    ensures r.Some? && current >= count ==> r.value == count - 1
  {
    var idx := if current >= count then count - 1 else current;
    if idx >= 0 then Some(idx) else None
  }

  // ---------------------------------------------------------------------
  // Where replies sit in the visible list, and which replies are shown

  /** Entry i of t has its parent shown before it, expanded. */
  predicate ParentShownBefore(t: seq<Article>, expanded: set<nat>, i: nat)
    requires i < |t|
  {
    exists j :: 0 <= j < i && t[j].id == t[i].parentID && t[j].id in expanded
  }

  /** Every entry of t replies to p, or follows its expanded parent. */
  predicate RepliesFollowParents(t: seq<Article>, expanded: set<nat>, p: nat)
  {
    forall i :: 0 <= i < |t| ==> t[i].parentID == p || ParentShownBefore(t, expanded, i)
  }

  lemma ShownBeforeShift(a: seq<Article>, b: seq<Article>, expanded: set<nat>, i: nat)
    requires i < |b| && ParentShownBefore(b, expanded, i)
    ensures ParentShownBefore(a + b, expanded, |a| + i)
  {
    var j :| 0 <= j < i && b[j].id == b[i].parentID && b[j].id in expanded;
    assert (a + b)[|a| + j] == b[j] && (a + b)[|a| + i] == b[i];
  }

  lemma ShownBeforePrefix(a: seq<Article>, b: seq<Article>, expanded: set<nat>, i: nat)
    requires i < |a| && ParentShownBefore(a, expanded, i)
    ensures ParentShownBefore(a + b, expanded, i)
  {
    var j :| 0 <= j < i && a[j].id == a[i].parentID && a[j].id in expanded;
    assert (a + b)[j] == a[j] && (a + b)[i] == a[i];
  }

  /** In a subtree every reply below the head follows its expanded parent. */
  lemma {:induction false} SubtreeParentsBefore(arts: seq<Article>, expanded: set<nat>, x: Article, fuel: nat)
    ensures RepliesFollowParents(Subtree(arts, expanded, x, fuel)[1..], expanded, x.id)
    ensures forall i :: 1 <= i < |Subtree(arts, expanded, x, fuel)| ==>
              ParentShownBefore(Subtree(arts, expanded, x, fuel), expanded, i)
    decreases fuel, 0, 0
  {
    var t := Subtree(arts, expanded, x, fuel);
    if x.id in expanded && fuel > 0 {
      var s := Subtrees(arts, expanded, Replies(arts, x.id), fuel - 1);
      SubtreesParentsBefore(arts, expanded, Replies(arts, x.id), fuel - 1, x.id);
      assert t == [x] + s && t[1..] == s;
      forall i | 1 <= i < |t|
        ensures ParentShownBefore(t, expanded, i)
      {
        if s[i - 1].parentID == x.id {
          assert t[0] == x && t[i] == s[i - 1];
        } else {
          ShownBeforeShift([x], s, expanded, i - 1);
        }
      }
    } else {
      assert t == [x];
    }
  }

  lemma {:induction false} SubtreesParentsBefore(arts: seq<Article>, expanded: set<nat>, xs: seq<Article>, fuel: nat, p: nat)
    requires forall y :: y in xs ==> y.parentID == p
    ensures RepliesFollowParents(Subtrees(arts, expanded, xs, fuel), expanded, p)
    decreases fuel, 1, |xs|
  {
    if xs != [] {
      var last := xs[|xs| - 1];
      assert last in xs;
      var a: seq<Article> := Subtrees(arts, expanded, xs[..|xs| - 1], fuel);
      var b: seq<Article> := Subtree(arts, expanded, last, fuel);
      SubtreesParentsBefore(arts, expanded, xs[..|xs| - 1], fuel, p);
      SubtreeParentsBefore(arts, expanded, last, fuel);
      SubtreeShape(arts, expanded, last, fuel);
      forall i | 0 <= i < |a + b|
        ensures (a + b)[i].parentID == p || ParentShownBefore(a + b, expanded, i)
      {
        if i < |a| {
          if a[i].parentID != p {
            ShownBeforePrefix(a, b, expanded, i);
          }
        } else if i > |a| {
          ShownBeforeShift(a, b, expanded, i - |a|);
        }
      }
    }
  }

  /** The visible list up to n: every reply follows its expanded parent. */
  lemma {:induction false} VisibleUpToParentsBefore(arts: seq<Article>, expanded: set<nat>, n: nat)
    requires n <= |arts|
    ensures RepliesFollowParents(VisibleUpTo(arts, expanded, n), expanded, 0)
  {
    if n > 0 {
      VisibleUpToParentsBefore(arts, expanded, n - 1);
      var a: seq<Article> := VisibleUpTo(arts, expanded, n - 1);
      var x := arts[n - 1];
      var b: seq<Article> := if x.parentID == 0 then Subtree(arts, expanded, x, |arts|) else [];
      if x.parentID == 0 {
        SubtreeParentsBefore(arts, expanded, x, |arts|);
        SubtreeShape(arts, expanded, x, |arts|);
      }
      forall i | 0 <= i < |a + b|
        ensures (a + b)[i].parentID == 0 || ParentShownBefore(a + b, expanded, i)
      {
        if i < |a| {
          if a[i].parentID != 0 {
            ShownBeforePrefix(a, b, expanded, i);
          }
        } else if i > |a| {
          ShownBeforeShift(a, b, expanded, i - |a|);
        }
      }
    }
  }

  /** A chain of articles from a root down to a reply: each one after the
    * first replies to the one before. */
  predicate ReplyChain(arts: seq<Article>, chain: seq<Article>)
  {
    |chain| > 0 && chain[0].parentID == 0 && ChainLinked(arts, chain)
  }

  /** Entry i of the chain replies to entry i - 1. */
  predicate RepliesToPrevious(chain: seq<Article>, i: nat)
    requires 0 < i < |chain|
  {
    chain[i].parentID != 0 && chain[i].parentID == chain[i - 1].id
  }

  predicate ChainLinked(arts: seq<Article>, chain: seq<Article>)
  {
    (forall i :: 0 <= i < |chain| ==> chain[i] in arts)
    && (forall i :: 0 < i < |chain| ==> RepliesToPrevious(chain, i))
  }

  lemma {:induction false} RepliesUpToHas(arts: seq<Article>, p: nat, n: nat, y: Article)
    requires n <= |arts| && y in arts[..n] && p != 0 && y.parentID == p
    ensures y in RepliesUpTo(arts, p, n)
  {
    assert arts[..n] == arts[..n - 1] + [arts[n - 1]];
    if y != arts[n - 1] {
      RepliesUpToHas(arts, p, n - 1, y);
    }
  }

  lemma {:induction false} SubtreesHas(arts: seq<Article>, expanded: set<nat>, xs: seq<Article>, fuel: nat, x: Article, y: Article)
    requires x in xs && y in Subtree(arts, expanded, x, fuel)
    ensures y in Subtrees(arts, expanded, xs, fuel)
    decreases |xs|
  {
    if x != xs[|xs| - 1] {
      assert x in xs[..|xs| - 1];
      SubtreesHas(arts, expanded, xs[..|xs| - 1], fuel, x, y);
    }
  }

  /** Whatever the subtree of a reply to an expanded article holds is in the
    * article's subtree, one level of fuel up. */
  lemma ReplySubtreeInSubtree(arts: seq<Article>, expanded: set<nat>, x: Article, c: Article, fuel: nat, y: Article)
    requires x.id in expanded && x.id != 0 && fuel > 0
    requires c in arts && c.parentID == x.id
    requires y in Subtree(arts, expanded, c, fuel - 1)
    ensures y in Subtree(arts, expanded, x, fuel)
  {
    assert arts[..|arts|] == arts;
    RepliesUpToHas(arts, x.id, |arts|, c);
    SubtreesHas(arts, expanded, Replies(arts, x.id), fuel - 1, c, y);
    assert Subtree(arts, expanded, x, fuel)
        == [x] + Subtrees(arts, expanded, Replies(arts, x.id), fuel - 1);
  }

  /** The tail of a linked chain is linked, and keeps the expanded articles. */
  lemma ChainTail(arts: seq<Article>, expanded: set<nat>, chain: seq<Article>)
    requires |chain| > 1 && ChainLinked(arts, chain)
    requires forall i :: 0 <= i < |chain| - 1 ==> chain[i].id in expanded
    ensures ChainLinked(arts, chain[1..]) && RepliesToPrevious(chain, 1)
    ensures forall i :: 0 <= i < |chain[1..]| - 1 ==> chain[1..][i].id in expanded
    ensures chain[1..][0] == chain[1] && chain[1..][|chain| - 2] == chain[|chain| - 1]
  {
    var c := chain[1..];
    forall i | 0 <= i < |c| - 1
      ensures c[i].id in expanded
    {
      assert c[i] == chain[i + 1];
    }
    forall i | 0 < i < |c|
      ensures RepliesToPrevious(c, i)
    {
      assert RepliesToPrevious(chain, i + 1);
    }
    assert RepliesToPrevious(chain, 1);
  }

  /** The last article of a chain headed by x, all of whose articles but the
    * last are expanded, is in x's subtree when the fuel covers the chain. */
  lemma {:induction false} ChainInSubtree(arts: seq<Article>, expanded: set<nat>, chain: seq<Article>, fuel: nat)
    requires |chain| > 0 && |chain| <= fuel + 1 && ChainLinked(arts, chain)
    requires forall i :: 0 <= i < |chain| - 1 ==> chain[i].id in expanded
    ensures chain[|chain| - 1] in Subtree(arts, expanded, chain[0], fuel)
    decreases |chain|
  {
    if |chain| > 1 {
      var c := chain[1..];
      ChainTail(arts, expanded, chain);
      ChainInSubtree(arts, expanded, c, fuel - 1);
      assert chain[0].id in expanded && chain[1] in arts;
      ReplySubtreeInSubtree(arts, expanded, chain[0], chain[1], fuel, chain[|chain| - 1]);
    }
  }

  lemma {:induction false} VisibleUpToHas(arts: seq<Article>, expanded: set<nat>, n: nat, r: nat, y: Article)
    requires r < n <= |arts| && arts[r].parentID == 0 && y in Subtree(arts, expanded, arts[r], |arts|)
    ensures y in VisibleUpTo(arts, expanded, n)
  {
    if r < n - 1 {
      VisibleUpToHas(arts, expanded, n - 1, r, y);
    }
  }

  /** Distinct members of a list are no more than its length. */
  lemma {:induction false} DistinctWithin(chain: seq<Article>, arts: seq<Article>)
    requires forall i, j :: 0 <= i < j < |chain| ==> chain[i] != chain[j]
    requires forall i :: 0 <= i < |chain| ==> chain[i] in arts
    ensures |chain| <= |arts|
    decreases |arts|
  {
    if chain != [] {
      var x := chain[|chain| - 1];
      var k :| 0 <= k < |arts| && arts[k] == x;
      var rest := arts[..k] + arts[k + 1..];
      var c := chain[..|chain| - 1];
      forall i | 0 <= i < |c|
        ensures c[i] in rest
      {
        assert c[i] != x && c[i] in arts;
        var m :| 0 <= m < |arts| && arts[m] == c[i];
        if m < k { assert rest[m] == c[i]; } else { assert rest[m - 1] == c[i]; }
      }
      DistinctWithin(c, rest);
    }
  }

  /** The converse of VisibleShape: an article is shown when it ends a chain
    * of distinct articles from a root down to it whose every article above
    * it is expanded. */
  lemma ExpandedChainShown(arts: seq<Article>, expanded: set<nat>, chain: seq<Article>)
    requires ReplyChain(arts, chain)
    requires forall i, j :: 0 <= i < j < |chain| ==> chain[i] != chain[j]
    requires forall i :: 0 <= i < |chain| - 1 ==> chain[i].id in expanded
    ensures chain[|chain| - 1] in Visible(arts, expanded)
  {
    DistinctWithin(chain, arts);
    ChainInSubtree(arts, expanded, chain, |arts|);
    var r :| 0 <= r < |arts| && arts[r] == chain[0];
    VisibleUpToHas(arts, expanded, |arts|, r, chain[|chain| - 1]);
  }
}
