/** The news browser of ui/screen_news.go: the path into the bundle and
  * category hierarchy, the threaded article list with its expansion state,
  * the selected article and the keys that move between them. */
module NewsScreen {
  import opened Bytes
  import opened Text
  import opened ThreadTree
  import UiScreens

  /** newsItem: a bundle or a category. */
  datatype NewsItem = NewsItem(name: string, isBundle: bool)

  /** An entry of the list: a bundle or category, or an article. */
  datatype ListItem = CategoryItem(item: NewsItem) | ArticleItem(article: Article)

  /** selectedArticleData. */
  datatype SelectedArticle = SelectedArticle(id: nat, title: string, poster: string, date: seq<byte>, content: string)

  /** The article data a server reply carries. */
  datatype ArticleData = ArticleData(title: string, poster: string, date: seq<byte>, data: string)

  /** The keys handleKeys tells apart. */
  datatype NewsKey = Esc | CtrlP | CtrlR | CtrlB | CtrlC | Space | PageUp | PageDown | Up | Down | Enter | OtherKey

  /** The message a key's command delivers, or what the key is passed on to. */
  datatype NewsCmd =
    | NoCmd
    | NavigateToBundle(path: seq<string>)
    | NavigateToCategory(path: seq<string>)
    | Cancelled
    | PostArticle(subject: string, parentID: nat)
    | CreateBundle
    | CreateCategory
    | RequestArticle(path: seq<string>, articleID: nat)
    | ScrollArticle(up: bool)
    | PassToList

  /** Space on an expandable article: expanded becomes collapsed and back. */
  function Toggled(s: set<nat>, id: nat): (r: set<nat>)
    ensures id in r <==> id !in s
    ensures r - {id} == s - {id}
  {
    if id in s then s - {id} else s + {id}
  }

  lemma ToggledTwice(s: set<nat>, id: nat)
    ensures Toggled(Toggled(s, id), id) == s
  {
  }

  /** parentMap: each listed id to its parent id, the later article winning
    * when ids repeat. */
  function ParentMapOf(arts: seq<Article>): (r: map<nat, nat>)
    ensures forall id :: id in r <==> exists k :: 0 <= k < |arts| && arts[k].id == id
  {
    if arts == [] then map[]
    else
      var last := arts[|arts| - 1];
      assert forall k :: 0 <= k < |arts| - 1 ==> arts[..|arts| - 1][k] == arts[k];
      ParentMapOf(arts[..|arts| - 1])[last.id := last.parentID]
  }

  /** parentMap[id], 0 when the id is not listed. */
  function ParentOf(pm: map<nat, nat>, id: nat): nat
  {
    if id in pm then pm[id] else 0
  }

  /** The ids the ancestor walk visits from `start`: start, its parent, and
    * so on up to id 0, at most `fuel` of them. */
  function AncestorChain(pm: map<nat, nat>, start: nat, fuel: nat): (r: seq<nat>)
    ensures forall i :: 0 <= i < |r| ==> r[i] != 0
    ensures |r| > 0 ==> r[0] == start
    decreases fuel
  {
    if start == 0 || fuel == 0 then [] else [start] + AncestorChain(pm, ParentOf(pm, start), fuel - 1)
  }

  /** Each id the walk visits after the first is the parent of the one
    * before it. */
  lemma {:induction false} AncestorChainLinks(pm: map<nat, nat>, start: nat, fuel: nat)
    ensures forall i :: 0 < i < |AncestorChain(pm, start, fuel)| ==>
      AncestorChain(pm, start, fuel)[i] == ParentOf(pm, AncestorChain(pm, start, fuel)[i - 1])
    decreases fuel
  {
    if start != 0 && fuel > 0 {
      AncestorChainLinks(pm, ParentOf(pm, start), fuel - 1);
    }
  }

  function Elems(s: seq<nat>): set<nat>
  {
    set i | 0 <= i < |s| :: s[i]
  }

  lemma ElemsCons(x: nat, s: seq<nat>)
    ensures Elems([x] + s) == {x} + Elems(s)
  {
    forall y | y in Elems([x] + s)
      ensures y in {x} + Elems(s)
    {
      var i :| 0 <= i < |[x] + s| && ([x] + s)[i] == y;
      if i > 0 {
        assert s[i - 1] == y;
      }
    }
    forall y | y in Elems(s)
      ensures y in Elems([x] + s)
    {
      var i :| 0 <= i < |s| && s[i] == y;
      assert ([x] + s)[i + 1] == y;
    }
    assert ([x] + s)[0] == x;
  }

  /** The articles as buildThreadTree leaves them. */
  method ThreadArticles(articles: seq<Article>) returns (threaded: seq<Article>)
    ensures threaded == Reversed(Threaded(articles))
  {
    var a := new Article[|articles|](i requires 0 <= i < |articles| => articles[i]);
    assert a[..] == articles;
    BuildThreadTree(a);
    threaded := a[..];
  }

  /** The list title of a category's articles. */
  function ArticlesTitle(newsPath: seq<string>): (r: string)
    ensures |newsPath| == 0 ==> r == "Articles"
    ensures |newsPath| > 0 ==> r == "Articles" + " - " + newsPath[|newsPath| - 1]
  {
    if |newsPath| > 0 then "Articles - " + newsPath[|newsPath| - 1] else "Articles"
  }

  function ArticleItems(arts: seq<Article>): (r: seq<ListItem>)
    ensures |r| == |arts| && forall i :: 0 <= i < |arts| ==> r[i] == ArticleItem(arts[i])
  {
    seq(|arts|, i requires 0 <= i < |arts| => ArticleItem(arts[i]))
  }

  function CategoryItems(cats: seq<NewsItem>): (r: seq<ListItem>)
    ensures |r| == |cats| && forall i :: 0 <= i < |cats| ==> r[i] == CategoryItem(cats[i])
  {
    seq(|cats|, i requires 0 <= i < |cats| => CategoryItem(cats[i]))
  }

  predicate ShowsArticleItems(items: seq<ListItem>)
  {
    exists i :: 0 <= i < |items| && items[i].ArticleItem?
  }

  /** Whether the list shows articles: the loop over its items. */
  method ShowsArticles(items: seq<ListItem>) returns (isViewingArticles: bool)
    ensures isViewingArticles <==> ShowsArticleItems(items)
  {
    isViewingArticles := false;
    var i := 0;
    while i < |items|
      invariant 0 <= i <= |items|
      invariant !exists k :: 0 <= k < i && items[k].ArticleItem?
    {
      if items[i].ArticleItem? {
        return true;
      }
      i := i + 1;
    }
  }

  class NewsScreen {
    var newsPath: seq<string>
    var isViewingCategory: bool
    var selectedArticle: Option<SelectedArticle>
    var pendingArticleID: nat
    var allArticles: seq<Article>
    var expandedArticles: set<nat>
    var items: seq<ListItem>
    var cursor: nat
    var title: string

    /** NewNewsScreen: at the root, nothing listed, expanded or selected. */
    constructor ()
      ensures newsPath == [] && !isViewingCategory && selectedArticle.None? && pendingArticleID == 0
      ensures allArticles == [] && expandedArticles == {} && items == [] && cursor == 0
    {
      newsPath, isViewingCategory, selectedArticle, pendingArticleID := [], false, None, 0;
      allArticles, expandedArticles, items, cursor, title := [], {}, [], 0, "";
    }

    /** The entry under the cursor, if any. */
    function SelectedItem(): (r: Option<ListItem>)
      reads this`items, this`cursor
      ensures r.Some? <==> cursor < |items|
      ensures r.Some? ==> r.value == items[cursor]
    {
      if cursor < |items| then Some(items[cursor]) else None
    }

    /** SetCategories: a fresh list of bundles and categories. */
    method SetCategories(categories: seq<NewsItem>)
      modifies this`items, this`cursor, this`isViewingCategory, this`selectedArticle
      ensures items == CategoryItems(categories) && cursor == 0
      ensures !isViewingCategory && selectedArticle.None?
    {
      items, cursor := CategoryItems(categories), 0;
      isViewingCategory, selectedArticle := false, None;
    }

    /** SetArticles: the threaded list is built and stored, and a fresh list
      * shows its visible part. */
    method SetArticles(articles: seq<Article>)
      modifies this`allArticles, this`items, this`cursor, this`title, this`isViewingCategory, this`selectedArticle
      ensures allArticles == Reversed(Threaded(articles))
      ensures items == ArticleItems(ListItems(Visible(allArticles, expandedArticles), expandedArticles)) && cursor == 0
      ensures title == ArticlesTitle(newsPath)
      ensures isViewingCategory && selectedArticle.None?
    {
      allArticles := ThreadArticles(articles);
      ShowArticles();
    }

    /** The fresh article list SetArticles builds from the stored articles. */
    method ShowArticles()
      modifies this`items, this`cursor, this`title, this`isViewingCategory, this`selectedArticle
      ensures items == ArticleItems(ListItems(Visible(allArticles, expandedArticles), expandedArticles)) && cursor == 0
      ensures title == ArticlesTitle(newsPath)
      ensures isViewingCategory && selectedArticle.None?
    {
      var visibleArticles := FilterVisibleArticles(allArticles, expandedArticles);
      items, cursor := ArticleItems(ListItems(visibleArticles, expandedArticles)), 0;
      title, isViewingCategory, selectedArticle := ArticlesTitle(newsPath), true, None;
    }

    /** SetArticleData: the awaited article becomes the selected one and
      * nothing is awaited any more. */
    method SetArticleData(article: ArticleData)
      modifies this`selectedArticle, this`pendingArticleID
      ensures selectedArticle == Some(SelectedArticle(old(pendingArticleID), article.title, article.poster,
                                                      article.date, article.data))
      ensures pendingArticleID == 0
    {
      selectedArticle := Some(SelectedArticle(pendingArticleID, article.title, article.poster, article.date, article.data));
      pendingArticleID := 0;
    }

    /** refreshArticleList: the visible articles of the stored list, each
      * marked with its expansion, and the cursor kept in range. */
    method RefreshArticleList()
      modifies this`items, this`cursor
      ensures items == ArticleItems(ListItems(Visible(allArticles, expandedArticles), expandedArticles))
      ensures RefreshedCursor(old(cursor), |items|).Some? ==> cursor == RefreshedCursor(old(cursor), |items|).value
      ensures RefreshedCursor(old(cursor), |items|).None? ==> cursor == old(cursor)
      ensures |items| > 0 ==> cursor < |items|
    {
      var visibleArticles := FilterVisibleArticles(allArticles, expandedArticles);
      var currentIndex: int := cursor;
      items := ArticleItems(ListItems(visibleArticles, expandedArticles));
      if currentIndex >= |items| {
        currentIndex := |items| - 1;
      }
      if currentIndex >= 0 {
        cursor := currentIndex;
      }
    }

    /** esc: an open article is closed first; inside a category with a
      * non-empty path the path goes up one level; otherwise the browser
      * closes, back at the root. */
    method EscKey() returns (cmd: NewsCmd)
      modifies this`selectedArticle, this`newsPath, this`isViewingCategory
      ensures old(selectedArticle).Some? ==>
        (selectedArticle.None? && newsPath == old(newsPath) && isViewingCategory == old(isViewingCategory) && cmd == NoCmd)
      ensures old(selectedArticle).None? && ShowsArticleItems(items) && |old(newsPath)| > 0 ==>
        (newsPath == UiScreens.PathUp(old(newsPath)) && cmd == NavigateToBundle(newsPath)
         && selectedArticle.None? && isViewingCategory == old(isViewingCategory))
      ensures old(selectedArticle).None? && (!ShowsArticleItems(items) || |old(newsPath)| == 0) ==>
        (newsPath == [] && !isViewingCategory && selectedArticle.None? && cmd == Cancelled)
    {
      if selectedArticle.Some? {
        selectedArticle := None;
        return NoCmd;
      }
      var isViewingArticles := ShowsArticles(items);
      if isViewingArticles && |newsPath| > 0 {
        newsPath := newsPath[..|newsPath| - 1];
        return NavigateToBundle(newsPath);
      }
      newsPath, isViewingCategory, selectedArticle := [], false, None;
      return Cancelled;
    }

    /** ctrl+p, ctrl+r, ctrl+b and ctrl+c: a new article only inside a
      * category; a reply only to an open article, with its subject prefixed
      * "Re: " once and the article as parent; a new bundle or category only
      * outside a category. */
    method FormKey(key: NewsKey) returns (cmd: NewsCmd)
      requires key == CtrlP || key == CtrlR || key == CtrlB || key == CtrlC
      ensures key == CtrlP ==> cmd == if isViewingCategory then PostArticle("", 0) else NoCmd
      ensures key == CtrlR && selectedArticle.None? ==> cmd == NoCmd
      ensures key == CtrlR && selectedArticle.Some? ==>
        cmd == PostArticle(UiScreens.ReplySubject(selectedArticle.value.title), selectedArticle.value.id)
      ensures key == CtrlB ==> cmd == if isViewingCategory then NoCmd else CreateBundle
      ensures key == CtrlC ==> cmd == if isViewingCategory then NoCmd else CreateCategory
    {
      match key {
        case CtrlP =>
          cmd := if isViewingCategory then PostArticle("", 0) else NoCmd;
        case CtrlR =>
          if selectedArticle.None? {
            return NoCmd;
          }
          var subject := selectedArticle.value.title;
          if !HasPrefix(subject, UiScreens.RePrefix) {
            subject := UiScreens.RePrefix + subject;
          }
          cmd := PostArticle(subject, selectedArticle.value.id);
        case CtrlB =>
          cmd := if isViewingCategory then NoCmd else CreateBundle;
        case CtrlC =>
          cmd := if isViewingCategory then NoCmd else CreateCategory;
      }
    }

    /** space: an article with replies flips between expanded and collapsed
      * and the list is rebuilt; any other entry changes nothing. */
    method SpaceKey()
      modifies this`expandedArticles, this`items, this`cursor
      ensures old(SelectedItem()).Some? && old(SelectedItem()).value.ArticleItem?
              && old(SelectedItem()).value.article.hasChildren ==>
        expandedArticles == Toggled(old(expandedArticles), old(SelectedItem()).value.article.id)
        && items == ArticleItems(ListItems(Visible(allArticles, expandedArticles), expandedArticles))
      ensures !(old(SelectedItem()).Some? && old(SelectedItem()).value.ArticleItem?
                && old(SelectedItem()).value.article.hasChildren) ==>
        expandedArticles == old(expandedArticles) && items == old(items) && cursor == old(cursor)
    {
      var selectedItem := SelectedItem();
      if selectedItem.Some? && selectedItem.value.ArticleItem? {
        var article := selectedItem.value.article;
        if article.hasChildren {
          if article.id in expandedArticles {
            expandedArticles := expandedArticles - {article.id};
          } else {
            expandedArticles := expandedArticles + {article.id};
          }
          RefreshArticleList();
        }
      }
    }

    /** pgup and pgdown scroll an open article; otherwise these keys, like
      * up and down, go to the list. */
    method MoveKey(key: NewsKey) returns (cmd: NewsCmd)
      requires key == PageUp || key == PageDown || key == Up || key == Down
      ensures selectedArticle.Some? && key == PageUp ==> cmd == ScrollArticle(true)
      ensures selectedArticle.Some? && key == PageDown ==> cmd == ScrollArticle(false)
      ensures selectedArticle.None? || key == Up || key == Down ==> cmd == PassToList
    {
      if selectedArticle.Some? {
        if key == PageUp {
          return ScrollArticle(true);
        } else if key == PageDown {
          return ScrollArticle(false);
        }
      }
      return PassToList;
    }

    /** enter on a bundle or category: "<- Back" goes up one level, any
      * other entry is appended to the path; a bundle lists the new path's
      * contents, a category its articles. The open article is closed. */
    method EnterCategory(item: NewsItem) returns (cmd: NewsCmd)
      modifies this`newsPath, this`selectedArticle
      ensures item.name == UiScreens.BackItem ==> newsPath == UiScreens.PathUp(old(newsPath)) && cmd == NavigateToBundle(newsPath)
      ensures item.name != UiScreens.BackItem ==> newsPath == old(newsPath) + [item.name]
      ensures item.name != UiScreens.BackItem ==> cmd == if item.isBundle then NavigateToBundle(newsPath) else NavigateToCategory(newsPath)
      ensures selectedArticle.None?
    {
      if item.name == UiScreens.BackItem {
        if |newsPath| > 0 {
          newsPath := newsPath[..|newsPath| - 1];
        }
        selectedArticle := None;
        return NavigateToBundle(newsPath);
      }
      newsPath := newsPath + [item.name];
      selectedArticle := None;
      if item.isBundle {
        return NavigateToBundle(newsPath);
      }
      return NavigateToCategory(newsPath);
    }

    /** enter on an article: a reply first has every article above it
      * expanded and the list rebuilt; then the article is awaited and
      * requested. */
    method EnterArticle(item: Article) returns (cmd: NewsCmd)
      modifies this`expandedArticles, this`items, this`cursor, this`pendingArticleID
      ensures item.parentID != 0 ==>
        expandedArticles == old(expandedArticles) + Elems(AncestorChain(ParentMapOf(allArticles), item.parentID, |allArticles| + 1))
        && items == ArticleItems(ListItems(Visible(allArticles, expandedArticles), expandedArticles))
      ensures item.parentID == 0 ==> expandedArticles == old(expandedArticles) && items == old(items) && cursor == old(cursor)
      ensures pendingArticleID == item.id && cmd == RequestArticle(newsPath, item.id)
    {
      if item.parentID != 0 {
        ExpandAncestors(item.parentID);
        RefreshArticleList();
      }
      pendingArticleID := item.id;
      return RequestArticle(newsPath, item.id);
    }

    /** The walk up the parent chain, expanding every id on it. The walk is
      * cut after one step more than there are articles. */
    method ExpandAncestors(parentID: nat)
      modifies this`expandedArticles
      ensures expandedArticles == old(expandedArticles) + Elems(AncestorChain(ParentMapOf(allArticles), parentID, |allArticles| + 1))
    {
      var parentMap: map<nat, nat> := map[];
      for i := 0 to |allArticles|
        invariant parentMap == ParentMapOf(allArticles[..i])
      {
        assert allArticles[..i + 1][..i] == allArticles[..i];
        parentMap := parentMap[allArticles[i].id := allArticles[i].parentID];
      }
      assert allArticles[..|allArticles|] == allArticles;
      var currentID := parentID;
      var fuel: nat := |allArticles| + 1;
      ghost var chain := AncestorChain(parentMap, parentID, fuel);
      while currentID != 0 && fuel > 0
        invariant expandedArticles + Elems(AncestorChain(parentMap, currentID, fuel)) == old(expandedArticles) + Elems(chain)
        decreases fuel
      {
        ghost var rest := AncestorChain(parentMap, ParentOf(parentMap, currentID), fuel - 1);
        ElemsCons(currentID, rest);
        expandedArticles := expandedArticles + {currentID};
        currentID := ParentOf(parentMap, currentID);
        fuel := fuel - 1;
      }
    }

    /** enter: what the entry under the cursor leads to. Nothing happens on
      * an empty list; a bundle or category is entered as EnterCategory says
      * and the article list is left alone; an article is opened as
      * EnterArticle says and the path is left alone. */
    method EnterKey() returns (cmd: NewsCmd)
      modifies this`newsPath, this`selectedArticle, this`expandedArticles, this`items, this`cursor, this`pendingArticleID
      ensures old(SelectedItem()).None? ==>
        cmd == NoCmd && newsPath == old(newsPath) && items == old(items) && cursor == old(cursor)
        && selectedArticle == old(selectedArticle) && expandedArticles == old(expandedArticles)
        && pendingArticleID == old(pendingArticleID)
      ensures var sel := old(SelectedItem());
        sel.Some? && sel.value.CategoryItem? ==>
          (sel.value.item.name == UiScreens.BackItem ==>
             newsPath == UiScreens.PathUp(old(newsPath)) && cmd == NavigateToBundle(newsPath))
          && (sel.value.item.name != UiScreens.BackItem ==>
                newsPath == old(newsPath) + [sel.value.item.name]
                && cmd == if sel.value.item.isBundle then NavigateToBundle(newsPath) else NavigateToCategory(newsPath))
          && selectedArticle.None?
          && expandedArticles == old(expandedArticles) && items == old(items) && cursor == old(cursor)
          && pendingArticleID == old(pendingArticleID)
      ensures var sel := old(SelectedItem());
        sel.Some? && sel.value.ArticleItem? ==>
          (sel.value.article.parentID != 0 ==>
             expandedArticles == old(expandedArticles)
               + Elems(AncestorChain(ParentMapOf(allArticles), sel.value.article.parentID, |allArticles| + 1))
             && items == ArticleItems(ListItems(Visible(allArticles, expandedArticles), expandedArticles)))
          && (sel.value.article.parentID == 0 ==>
                expandedArticles == old(expandedArticles) && items == old(items) && cursor == old(cursor))
          && pendingArticleID == sel.value.article.id
          && cmd == RequestArticle(old(newsPath), sel.value.article.id)
          && newsPath == old(newsPath) && selectedArticle == old(selectedArticle)
    {
      var selectedItem := SelectedItem();
      if selectedItem.None? {
        return NoCmd;
      }
      match selectedItem.value {
        case CategoryItem(item) =>
          cmd := EnterCategory(item);
        case ArticleItem(article) =>
          cmd := EnterArticle(article);
      }
    }
  }
}
