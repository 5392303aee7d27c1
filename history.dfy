/** The screen-history stack that both Model types (internal/model.go and
  * ui/model.go) keep as a slice whose last element is the screen on show.
  * The functions here say what each stack operation leaves behind; the
  * Model classes update their own history field to exactly these values. */
module ScreenHistory {

  /** CurrentScreen: the top of the stack, or home when the stack is empty. */
  function Current<S>(h: seq<S>, home: S): S
  {
    if |h| == 0 then home else h[|h| - 1]
  }

  /** PreviousScreen: the entry under the top, or home when there is none. */
  function Previous<S>(h: seq<S>, home: S): S
  {
    if |h| < 2 then home else h[|h| - 2]
  }

  /** PushScreen's result. */
  function Pushed<S>(h: seq<S>, s: S): (r: seq<S>)
    ensures |r| == |h| + 1 && r[..|h|] == h && r[|h|] == s
  {
    h + [s]
  }

  /** PopScreen's result: the top removed, or a lone home entry when at most
    * one entry was there. */
  function Popped<S>(h: seq<S>, home: S): (r: seq<S>)
    ensures |r| >= 1
    ensures |h| >= 2 ==> |r| == |h| - 1 && h == r + [h[|h| - 1]]
    ensures |h| <= 1 ==> r == [home]
  {
    if |h| <= 1 then [home] else h[..|h| - 1]
  }

  /** ReplaceScreen's result: the top overwritten, or [s] for an empty stack. */
  function Replaced<S>(h: seq<S>, s: S): (r: seq<S>)
    ensures |r| == if |h| == 0 then 1 else |h|
    ensures Current(r, s) == s
    ensures forall i :: 0 <= i < |h| - 1 ==> r[i] == h[i]
  {
    if |h| == 0 then [s] else h[|h| - 1 := s]
  }

  /** The screen PopScreen returns is the one PreviousScreen named before. */
  lemma PopShowsPrevious<S>(h: seq<S>, home: S)
    ensures Current(Popped(h, home), home) == Previous(h, home)
  {
  }

  /** After a push, the screen left behind is PreviousScreen, and the pushed
    * one is current. */
  lemma PushShowsPushed<S>(h: seq<S>, s: S, home: S)
    ensures Current(Pushed(h, s), home) == s
    ensures Previous(Pushed(h, s), home) == Current(h, home)
  {
  }

  /** A pop undoes a push on any non-empty history. */
  lemma PopUndoesPush<S>(h: seq<S>, s: S, home: S)
    requires |h| >= 1
    ensures Popped(Pushed(h, s), home) == h
  {
  }

  /** The history operations as a script. */
  datatype Step<S> = Push(s: S) | Pop | Replace(s: S) | NavigateTo(s: S)

  function Apply<S>(h: seq<S>, home: S, step: Step<S>): seq<S>
  {
    match step
    case Push(s) => Pushed(h, s)
    case Pop => Popped(h, home)
    case Replace(s) => Replaced(h, s)
    case NavigateTo(s) => [s]
  }

  /** The history after running the steps in order. */
  function Run<S>(h: seq<S>, home: S, steps: seq<Step<S>>): seq<S>
    decreases |steps|
  {
    if steps == [] then h else Run(Apply(h, home, steps[0]), home, steps[1..])
  }

  /** The pushes among the steps. */
  function PushCount<S>(steps: seq<Step<S>>): (n: nat)
    ensures n <= |steps|
  {
    if steps == [] then 0 else (if steps[0].Push? then 1 else 0) + PushCount(steps[1..])
  }

  /** Starting from NewModel's [home], no sequence of operations empties
    * the history, and it never grows by more than one entry per push. */
  lemma {:induction false} NeverEmpty<S>(h: seq<S>, home: S, steps: seq<Step<S>>)
    requires |h| >= 1
    ensures 1 <= |Run(h, home, steps)| <= |h| + PushCount(steps)
    decreases |steps|
  {
    if steps != [] {
      NeverEmpty(Apply(h, home, steps[0]), home, steps[1..]);
    }
  }

  /** A NavigateTo anywhere in a script forgets everything before it: the
    * result depends only on the steps from the last NavigateTo on. */
  lemma {:induction false} NavigateForgets<S>(h: seq<S>, g: seq<S>, home: S, steps: seq<Step<S>>, s: S)
    ensures Run(h, home, [NavigateTo(s)] + steps) == Run(g, home, [NavigateTo(s)] + steps)
  {
    assert ([NavigateTo(s)] + steps)[1..] == steps;
  }
}
