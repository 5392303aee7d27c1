/** The value formatting and the task-widget selection of internal/screens.go
  * (ui/screens.go carries identical copies): formatBytes' unit choice,
  * formatDuration's clock text, the 18-character file-name cut and which
  * transfers the "Recent Transfers" widget lists. */
module Formatting {
  import opened Text
  import opened Tasks

  const MaxInt64: int := 0x7FFF_FFFF_FFFF_FFFF
  const MinInt64: int := -0x8000_0000_0000_0000

  // ---------------------------------------------------------------------
  // formatBytes

  const Unit: nat := 1024

  /** 1024 to the power e. */
  function Pow1024(e: nat): (p: nat)
    ensures p >= 1
  {
    if e == 0 then 1 else Unit * Pow1024(e - 1)
  }

  lemma Pow1024Six()
    ensures Pow1024(6) == 0x1000_0000_0000_0000
  {
    assert Pow1024(1) == 1024;
    assert Pow1024(2) == 0x10_0000;
    assert Pow1024(3) == 0x4000_0000;
    assert Pow1024(4) == 0x100_0000_0000;
    assert Pow1024(5) == 0x4_0000_0000_0000;
  }

  lemma DivUnique(b: int, d: int, q: int, r: int)
    requires d > 0 && 0 <= r < d && b == d * q + r
    ensures b / d == q
  {
    var q', r' := b / d, b % d;
    assert b == d * q' + r';
    if q' < q {
      MulMono(d, q' + 1, q);
      assert false;
    } else if q' > q {
      MulMono(d, q + 1, q');
      assert false;
    }
  }

  lemma MulMono(d: int, x: int, y: int)
    requires d > 0 && x <= y
    ensures d * x <= d * y
  {
    assert d * y == d * x + d * (y - x);
  }

  /** The text formatBytes prints: a plain byte count below 1024, otherwise
    * the count divided by div (printed with one decimal, not modelled) and
    * the unit letter. */
  datatype ByteSize = Plain(text: string) | Scaled(div: nat, exp: nat, unit: char)

  const UnitLetters: string := "KMGTPE"

  /** One pass of formatBytes' loop: when n is b's quotient by div, n / 1024
    * is its quotient by div * 1024. */
  lemma ScaleStep(b: int, div: int, n: int)
    requires div > 0 && n >= 0 && div * n <= b < div * (n + 1)
    ensures (div * Unit) * (n / Unit) <= b < (div * Unit) * (n / Unit + 1)
  {
    var q, r := n / Unit, n % Unit;
    assert n == Unit * q + r && 0 <= r < Unit;
    assert div * n == (div * Unit) * q + div * r by {
      assert div * (Unit * q) == (div * Unit) * q;
    }
    assert div * r >= 0;
    MulMono(div, n + 1, Unit * (q + 1));
    assert div * (Unit * (q + 1)) == (div * Unit) * (q + 1);
  }

  /** formatBytes on an int64: below 1024 the "%d B" text; otherwise the
    * power of 1024 that leaves a quotient in [1, 1024) and its letter. */
  method FormatBytes(b: int) returns (r: ByteSize)
    requires MinInt64 <= b <= MaxInt64
    ensures b < Unit ==> r == Plain(IntToString(b) + " B")
    ensures b >= Unit ==> r.Scaled? && r.exp < |UnitLetters| && r.unit == UnitLetters[r.exp]
                          && r.div == Pow1024(r.exp + 1) && r.div <= b < r.div * Unit
  {
    if b < Unit {
      return Plain(IntToString(b) + " B");
    }
    var div, exp := Unit, 0;
    var n := b / Unit;
    while n >= Unit
      invariant exp <= 5 && div == Pow1024(exp + 1)
      invariant n >= 1 && div * n <= b < div * (n + 1)
    {
      if exp == 5 {
        Pow1024Six();
        MulMono(div, Unit, n);
        assert false;
      }
      ScaleStep(b, div, n);
      n := n / Unit;
      div := div * Unit;
      exp := exp + 1;
    }
    MulMono(div, 1, n);
    MulMono(div, n + 1, Unit);
    return Scaled(div, exp, UnitLetters[exp]);
  }

  // ---------------------------------------------------------------------
  // formatDuration

  const Second: int := 1_000_000_000
  const Minute: int := 60 * Second
  const Hour: int := 60 * Minute

  /** Go's integer division, which truncates toward zero. */
  function Quot(a: int, b: int): (q: int)
    requires b > 0
    ensures a >= 0 ==> q == a / b
  {
    if a >= 0 then a / b else -((-a) / b)
  }

  /** Duration.Round(time.Second) on nanoseconds: to the nearest second,
    * halves away from zero, saturating at the int64 bounds. */
  function RoundToSecond(d: int): (r: int)
    requires MinInt64 <= d <= MaxInt64
    ensures MinInt64 <= r <= MaxInt64
    ensures d >= 0 ==> r >= 0
  {
    var rem := d - Second * Quot(d, Second);
    if d < 0 then
      var rr := -rem;
      if rr + rr < Second then d + rr
      else if d - Second + rr >= MinInt64 then d - Second + rr else MinInt64
    else if rem + rem < Second then d - rem
    else if d + Second - rem <= MaxInt64 then d + Second - rem else MaxInt64
  }

  /** Away from saturation the rounded value is a whole number of seconds
    * at most half a second from d. */
  lemma RoundToSecondNearest(d: int)
    requires 0 <= d <= MaxInt64 - Second
    ensures RoundToSecond(d) % Second == 0
    ensures d - Second / 2 < RoundToSecond(d) <= d + Second / 2
  {
    var q, rem := d / Second, d % Second;
    assert Quot(d, Second) == q;
    if rem + rem < Second {
      assert RoundToSecond(d) == Second * q;
      DivUnique(Second * q, Second, q, 0);
    } else {
      assert RoundToSecond(d) == Second * (q + 1);
      DivUnique(Second * (q + 1), Second, q + 1, 0);
    }
  }

  /** fmt's "%02d" of any integer: two digits, or the sign and the digits. */
  function Pad02(x: int): (s: string)
    ensures x >= 0 ==> s == Pad2(x)
  {
    if x >= 0 then Pad2(x) else IntToString(x)
  }

  /** The hours, minutes and seconds formatDuration prints. */
  function Clock(d: int): (hms: (int, int, int))
    requires MinInt64 <= d <= MaxInt64
  {
    var rounded := RoundToSecond(d);
    var h := Quot(rounded, Hour);
    var m := Quot(rounded - h * Hour, Minute);
    var s := Quot(rounded - h * Hour - m * Minute, Second);
    (h, m, s)
  }

  /** formatDuration: "h:mm:ss" when there are whole hours, else "m:ss". */
  function FormatDuration(d: int): string
    requires MinInt64 <= d <= MaxInt64
  {
    var (h, m, s) := Clock(d);
    if h > 0 then IntToString(h) + ":" + Pad02(m) + ":" + Pad02(s)
    else IntToString(m) + ":" + Pad02(s)
  }

  /** For a non-negative duration the clock fields are a proper split of the
    * rounded whole seconds: minutes and seconds below 60. */
  lemma ClockSplit(d: int)
    requires 0 <= d <= MaxInt64
    ensures var (h, m, s) := Clock(d);
      h >= 0 && 0 <= m < 60 && 0 <= s < 60
      && h * 3600 + m * 60 + s == RoundToSecond(d) / Second
  {
    var rounded := RoundToSecond(d);
    var h := rounded / Hour;
    var r1 := rounded - h * Hour;
    var m := r1 / Minute;
    var r2 := r1 - m * Minute;
    var s := r2 / Second;
    assert 0 <= r1 < Hour;
    assert 0 <= r2 < Minute;
    assert 0 <= m < 60;
    assert 0 <= s < 60;
    DivUnique(rounded, Second, h * 3600 + m * 60 + s, r2 - s * Second);
  }

  /** The printed duration reads back as the rounded number of seconds:
    * hours, then two-digit minutes and seconds (the hours left out when zero). */
  lemma FormatDurationReadsBack(d: int)
    requires 0 <= d <= MaxInt64
    ensures var (h, m, s) := Clock(d);
      && FormatDuration(d) == (if h > 0 then NatToString(h) + ":" + Pad2(m) + ":" + Pad2(s)
                               else NatToString(m) + ":" + Pad2(s))
      && |Pad2(m)| == 2 && |Pad2(s)| == 2
      && DigitsValue(NatToString(h)) * 3600 + DigitsValue(Pad2(m)) * 60 + DigitsValue(Pad2(s))
         == RoundToSecond(d) / Second
  {
    ClockSplit(d);
    var (h, m, s) := Clock(d);
    DigitsValueOfNatToString(h);
  }

  // ---------------------------------------------------------------------
  // Task widget

  const NameWidth: nat := 18

  /** renderCompactTask's name cut: longer than 18 becomes the first 15
    * characters and "...", exactly 18 long. */
  function TruncateName(name: string): (r: string)
    ensures |r| <= NameWidth
    ensures |name| <= NameWidth ==> r == name
    ensures |name| > NameWidth ==> |r| == NameWidth && r[..15] == name[..15] && r[15..] == "..."
  {
    if |name| > NameWidth then name[..15] + "..." else name
  }

  /** Cutting a cut name changes nothing. */
  lemma TruncateNameIdempotent(name: string)
    ensures TruncateName(TruncateName(name)) == TruncateName(name)
  {
  }

  const WidgetSlots: nat := 3

  /** The transfers the widget lists: the first three active ones, and when
    * there are fewer, the first finished ones after them to fill three. */
  function WidgetTasks(active: seq<Task>, completed: seq<Task>): seq<Task>
  {
    if |active| >= WidgetSlots then active[..WidgetSlots]
    else
      var fill := if WidgetSlots - |active| < |completed| then WidgetSlots - |active| else |completed|;
      active + completed[..fill]
  }

  /** renderTaskWidget's selection loop over GetActive() and GetCompleted(3). */
  method SelectDisplayTasks(activeTasks: seq<Task>, completedTasks: seq<Task>) returns (displayTasks: seq<Task>)
    ensures displayTasks == WidgetTasks(activeTasks, completedTasks)
  {
    displayTasks := activeTasks;
    var remaining := WidgetSlots - |activeTasks|;
    if remaining > 0 && |completedTasks| > 0 {
      var i := 0;
      while i < remaining && i < |completedTasks|
        invariant 0 <= i <= remaining && i <= |completedTasks|
        invariant displayTasks == activeTasks + completedTasks[..i]
      {
        assert completedTasks[..i + 1] == completedTasks[..i] + [completedTasks[i]];
        displayTasks := displayTasks + [completedTasks[i]];
        i := i + 1;
      }
    }
    if |displayTasks| > WidgetSlots {
      displayTasks := displayTasks[..WidgetSlots];
    }
  }

  /** At most three transfers: the active ones come first in their order,
    * and finished ones follow only when fewer than three are active. With
    * GetActive's and GetCompleted(3)'s results this lists the unfinished
    * transfers in insertion order and then the newest finished ones. */
  lemma WidgetShowsActiveFirst(active: seq<Task>, completed: seq<Task>)
    ensures |WidgetTasks(active, completed)| == (if |active| + |completed| < WidgetSlots then |active| + |completed| else WidgetSlots)
    ensures forall i :: 0 <= i < |WidgetTasks(active, completed)| && i < |active| ==> WidgetTasks(active, completed)[i] == active[i]
    ensures forall i :: |active| <= i < |WidgetTasks(active, completed)| ==> WidgetTasks(active, completed)[i] == completed[i - |active|]
  {
  }
}
