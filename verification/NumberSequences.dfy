/**
 * Document numbers: a prefix and a zero-padded decimal, issued by an atomic increment, and a settings
 * update that checks the row it read before it writes.
 */
module NumberSequences {
  import opened Wrappers

  // ---- decimals

  function DigitOf(n: nat): char
    requires n < 10
  {
    "0123456789"[n]
  }

  predicate IsDigit(c: char) {
    '0' <= c <= '9'
  }

  predicate AllDigits(s: string) {
    forall i :: 0 <= i < |s| ==> IsDigit(s[i])
  }

  function DigitValue(c: char): nat
    requires IsDigit(c)
  {
    (c - '0') as nat
  }

  function Decimal(n: nat): string {
    if n < 10 then [DigitOf(n)] else Decimal(n / 10) + [DigitOf(n % 10)]
  }

  function Value(s: string): nat
    requires AllDigits(s)
  {
    if s == [] then 0 else 10 * Value(s[..|s| - 1]) + DigitValue(s[|s| - 1])
  }

  function Zeros(n: nat): string {
    seq(n, _ => '0')
  }

  /** `String(n).padStart(padding, "0")`. */
  function Padded(n: nat, padding: nat): string {
    var digits := Decimal(n);
    if |digits| >= padding then digits else Zeros(padding - |digits|) + digits
  }

  /** `formatSequenceExample`. */
  function Format(prefix: string, n: nat, padding: nat): string {
    prefix + Padded(n, padding)
  }

  lemma {:induction false} DecimalReadsBack(n: nat)
    ensures AllDigits(Decimal(n)) && Value(Decimal(n)) == n && |Decimal(n)| > 0
    ensures n > 0 ==> Decimal(n)[0] != '0'
  {
    if n >= 10 {
      DecimalReadsBack(n / 10);
      var s := Decimal(n);
      assert s[..|s| - 1] == Decimal(n / 10);
    }
  }

  lemma {:induction false} ZerosAreWorthless(k: nat, s: string)
    requires AllDigits(s)
    ensures AllDigits(Zeros(k) + s) && Value(Zeros(k) + s) == Value(s)
  {
    var t := Zeros(k) + s;
    if s != [] {
      ZerosAreWorthless(k, s[..|s| - 1]);
      assert t[..|t| - 1] == Zeros(k) + s[..|s| - 1];
    } else if k > 0 {
      ZerosAreWorthless(k - 1, []);
      assert t[..|t| - 1] == Zeros(k - 1) + [];
    }
  }

  /** Padding never hides which number it is. */
  lemma PaddedReadsBack(n: nat, padding: nat)
    ensures AllDigits(Padded(n, padding)) && Value(Padded(n, padding)) == n && |Padded(n, padding)| >= padding
    ensures n > 0 ==> (|Padded(n, padding)| == padding || Padded(n, padding)[0] != '0')
  {
    DecimalReadsBack(n);
    if |Decimal(n)| < padding {
      ZerosAreWorthless(padding - |Decimal(n)|, Decimal(n));
    }
  }

  /** A digit string that does not start with zero is its number's decimal. */
  lemma {:induction false} DecimalOfValue(s: string)
    requires AllDigits(s) && s != [] && s[0] != '0'
    ensures Decimal(Value(s)) == s && Value(s) > 0
  {
    var n := |s| - 1;
    if n > 0 {
      DecimalOfValue(s[..n]);
      assert Value(s) / 10 == Value(s[..n]) && Value(s) % 10 == DigitValue(s[n]);
    } else {
      assert s[..0] == [];
    }
    assert DigitOf(DigitValue(s[n])) == s[n];
    assert s == s[..n] + [s[n]];
  }

  /** A digit string is the padded form of its number at its own length. */
  lemma {:induction false} PaddedOfValue(s: string)
    requires AllDigits(s) && s != []
    ensures Padded(Value(s), |s|) == s
  {
    if s[0] != '0' {
      DecimalOfValue(s);
    } else if |s| > 1 {
      PaddedOfValue(s[1..]);
      assert s == Zeros(1) + s[1..];
      ZerosAreWorthless(1, s[1..]);
      PaddedOneMore(Value(s), |s| - 1);
    } else {
      assert s[..0] == [] && s == ['0'];
    }
  }

  lemma PaddedOneMore(n: nat, padding: nat)
    requires |Padded(n, padding)| == padding
    ensures Padded(n, padding + 1) == Zeros(1) + Padded(n, padding)
  {
  }

  /** Under one prefix, numbers are the same document number only when they are the same number, whatever the paddings. */
  lemma SamePrefixIsInjective(prefix: string, n: nat, a: nat, m: nat, b: nat)
    requires Format(prefix, n, a) == Format(prefix, m, b)
    ensures n == m
  {
    assert Format(prefix, n, a)[|prefix|..] == Padded(n, a);
    assert Format(prefix, m, b)[|prefix|..] == Padded(m, b);
    PaddedReadsBack(n, a);
    PaddedReadsBack(m, b);
  }

  // ---- two prefixes

  const MIN_PADDING := 3
  const MAX_PADDING := 10

  predicate ValidPadding(a: nat) {
    MIN_PADDING <= a <= MAX_PADDING
  }

  const MAX_PREFIX_LENGTH := 12

  predicate ValidPrefix(p: string) {
    0 < |p| <= MAX_PREFIX_LENGTH
    && forall i :: 0 <= i < |p| ==> IsDigit(p[i]) || 'A' <= p[i] <= 'Z' || p[i] == '-' || p[i] == '/'
  }

  /** The largest number that is ever issued: the column, a 32-bit integer, holds the one after it. */
  const MAX_ISSUED := 2147483646

  predicate CanIssue(n: nat, padding: nat) {
    1 <= n <= MAX_ISSUED && ValidPadding(padding)
  }

  ghost predicate CanClash(p: string, q: string) {
    exists n: nat, a: nat, m: nat, b: nat :: CanIssue(n, a) && CanIssue(m, b) && Format(p, n, a) == Format(q, m, b)
  }

  /**
   * The longer prefix is the shorter one and some digits, which a number under the shorter one can
   * start with: one that is small enough, and short enough when it has to start with zeros.
   */
  predicate Extends(q: string, p: string) {
    && |p| < |q| && q[..|p|] == p && AllDigits(q[|p|..])
    && (q[|p|] != '0' || |q| - |p| <= MAX_PADDING - MIN_PADDING)
    && Value(q[|p|..] + "001") <= MAX_ISSUED
  }

  lemma {:induction false} ValueOfParts(x: string, y: string)
    requires AllDigits(x) && AllDigits(y)
    ensures AllDigits(x + y)
    ensures |y| >= 3 ==> Value(x + y) >= 1000 * Value(x) + Value(y)
    ensures |y| == 3 ==> Value(x + y) == 1000 * Value(x) + Value(y)
  {
    if |y| > 3 {
      var n := |y| - 1;
      ValueOfParts(x, y[..n]);
      AnotherDigit(x + y[..n], y[n]);
      assert x + y == x + y[..n] + [y[n]];
    } else if |y| == 3 {
      assert y == [y[0], y[1], y[2]] == [y[0], y[1]] + [y[2]];
      AnotherDigit(x, y[0]);
      AnotherDigit(x + [y[0]], y[1]);
      AnotherDigit(x + [y[0]] + [y[1]], y[2]);
      assert x + y == x + [y[0]] + [y[1]] + [y[2]];
      AnotherDigit([], y[0]);
      AnotherDigit([y[0]], y[1]);
      AnotherDigit([y[0], y[1]], y[2]);
      assert [] + [y[0]] == [y[0]] && [y[0]] + [y[1]] == [y[0], y[1]];
    }
  }

  lemma AnotherDigit(s: string, c: char)
    requires AllDigits(s) && IsDigit(c)
    ensures AllDigits(s + [c]) && Value(s + [c]) == 10 * Value(s) + DigitValue(c)
  {
  }

  lemma ClashMeansExtends(p: string, q: string, n: nat, a: nat, m: nat, b: nat)
    requires CanIssue(n, a) && CanIssue(m, b) && Format(p, n, a) == Format(q, m, b) && |p| < |q|
    ensures Extends(q, p)
  {
    PaddedReadsBack(n, a);
    PaddedReadsBack(m, b);
    var x, y := Padded(n, a), Padded(m, b);
    PrefixesOverlap(p, x, q, y);
    hide Padded, Value;
    var digits := q[|p|..];
    assert forall i :: 0 <= i < |digits| ==> digits[i] == x[i];
    ValueOfParts(digits, y);
    ValueOfParts(digits, "001");
    ValueOfOne();
  }

  lemma ValueOfOne()
    ensures Value("001") == 1
  {
    assert "001"[..2] == "00" && "00"[..1] == "0" && "0"[..0] == "";
  }

  lemma PrefixesOverlap(p: string, x: string, q: string, y: string)
    requires p + x == q + y && |p| <= |q|
    ensures q[..|p|] == p && x == q[|p|..] + y
  {
    assert (p + x)[..|p|] == p && (q + y)[..|p|] == q[..|p|];
    assert (p + x)[|p|..] == x && (q + y)[|p|..] == q[|p|..] + y;
  }

  lemma ExtendsMeansClash(p: string, q: string)
    requires Extends(q, p)
    ensures CanClash(p, q)
  {
    var digits := q[|p|..] + "001";
    var n := Value(digits);
    assert digits[..|digits| - 1] == q[|p|..] + "00";
    assert Decimal(1) == "1" && Zeros(2) == "00";
    assert Padded(1, 3) == "001";
    assert p + digits == q + "001" by {
      assert q == q[..|p|] + q[|p|..];
    }
    if digits[0] != '0' {
      DecimalOfValue(digits);
      assert Padded(n, 3) == digits;
      assert Format(p, n, 3) == Format(q, 1, 3);
    } else {
      PaddedOfValue(digits);
      assert n > 0;
      assert Format(p, n, |digits|) == Format(q, 1, 3);
    }
  }

  /** Two different prefixes can produce the same document number exactly when one extends the other. */
  lemma PrefixesClashExactlyWhen(p: string, q: string)
    requires p != q && ValidPrefix(p) && ValidPrefix(q)
    ensures CanClash(p, q) <==> Extends(q, p) || Extends(p, q)
  {
    if CanClash(p, q) {
      var n: nat, a: nat, m: nat, b: nat :|
        CanIssue(n, a) && CanIssue(m, b) && Format(p, n, a) == Format(q, m, b);
      assert Format(p, n, a)[..|p|] == p && Format(q, m, b)[..|q|] == q;
      if |p| < |q| {
        ClashMeansExtends(p, q, n, a, m, b);
      } else if |q| < |p| {
        ClashMeansExtends(q, p, m, b, n, a);
      } else {
        assert false;
      }
    }
    if Extends(q, p) {
      ExtendsMeansClash(p, q);
    }
    if Extends(p, q) {
      ExtendsMeansClash(q, p);
      var n: nat, a: nat, m: nat, b: nat :|
        CanIssue(n, a) && CanIssue(m, b) && Format(q, n, a) == Format(p, m, b);
      assert Format(p, m, b) == Format(q, n, a);
    }
  }

  // ---- issuing and updating

  datatype Row = Row(prefix: string, nextNumber: nat, padding: nat)

  datatype Update = Update(prefix: Option<string>, nextNumber: Option<nat>, padding: Option<nat>)

  /** `toUpdateData`, against the row as it was read. */
  predicate Acceptable(row: Row, u: Update) {
    && (u.prefix.Some? ==> ValidPrefix(u.prefix.value))
    && (u.padding.Some? ==> ValidPadding(u.padding.value))
    && (u.nextNumber.Some? ==> u.nextNumber.value >= 1 && u.nextNumber.value >= row.nextNumber)
  }

  function Written(row: Row, u: Update): Row {
    Row(if u.prefix.Some? then u.prefix.value else row.prefix,
        if u.nextNumber.Some? then u.nextNumber.value else row.nextNumber,
        if u.padding.Some? then u.padding.value else row.padding)
  }

  datatype Issued = Issued(number: nat, text: string)

  /** `next` is one atomic step; an update reads and checks in one step and writes in a later one. */
  datatype Step = Issue | Check(update: Update) | Write(k: nat)

  datatype State = State(row: Row, checked: seq<Update>, issued: seq<Issued>)

  function Next(s: State, step: Step): State {
    match step
    case Issue =>
      s.(row := s.row.(nextNumber := s.row.nextNumber + 1),
         issued := s.issued + [Issued(s.row.nextNumber, Format(s.row.prefix, s.row.nextNumber, s.row.padding))])
    case Check(u) => if Acceptable(s.row, u) then s.(checked := s.checked + [u]) else s
    case Write(k) => if k < |s.checked| then s.(row := Written(s.row, s.checked[k])) else s
  }

  function Run(s: State, steps: seq<Step>): State {
    if steps == [] then s else Next(Run(s, steps[..|steps| - 1]), steps[|steps| - 1])
  }

  /** The write keeps the prefix and does not lower the number below where it has got to meanwhile. */
  predicate Harmless(s: State, step: Step) {
    step.Write? && step.k < |s.checked| ==>
      var u := s.checked[step.k];
      (u.prefix.Some? ==> u.prefix.value == s.row.prefix) && (u.nextNumber.Some? ==> u.nextNumber.value >= s.row.nextNumber)
  }

  ghost predicate Fresh(s: State, prefix: string) {
    && s.row.prefix == prefix
    && (forall i :: 0 <= i < |s.issued| ==>
          s.issued[i].number < s.row.nextNumber && exists a :: s.issued[i].text == Format(prefix, s.issued[i].number, a))
    && (forall i, j :: 0 <= i < j < |s.issued| ==> s.issued[i].number < s.issued[j].number)
  }

  lemma HarmlessKeepsFresh(s: State, prefix: string, step: Step)
    requires Fresh(s, prefix) && Harmless(s, step)
    ensures Fresh(Next(s, step), prefix)
  {
    hide Format;
    var s' := Next(s, step);
    if step.Issue? {
      var last := s'.issued[|s.issued|];
      assert last.text == Format(prefix, last.number, s.row.padding);
      assert forall i :: 0 <= i < |s.issued| ==> s'.issued[i] == s.issued[i];
      forall i | 0 <= i < |s'.issued|
        ensures s'.issued[i].number < s'.row.nextNumber && exists a :: s'.issued[i].text == Format(prefix, s'.issued[i].number, a)
      {
        if i < |s.issued| {
          var a :| s.issued[i].text == Format(prefix, s.issued[i].number, a);
          assert s'.issued[i].text == Format(prefix, s'.issued[i].number, a);
        }
      }
    } else {
      assert s'.issued == s.issued && s'.row.prefix == prefix && s'.row.nextNumber >= s.row.nextNumber;
    }
  }

  /** However issuing, raising and re-padding interleave, no document number is issued twice. */
  lemma {:induction false} IssuedNumbersAreDistinct(row: Row, steps: seq<Step>)
    requires forall k :: 0 <= k < |steps| ==> Harmless(Run(State(row, [], []), steps[..k]), steps[k])
    ensures var s := Run(State(row, [], []), steps);
            && Fresh(s, row.prefix)
            && forall i, j :: 0 <= i < j < |s.issued| ==> s.issued[i].text != s.issued[j].text
  {
    var start := State(row, [], []);
    if steps != [] {
      var before := steps[..|steps| - 1];
      forall k | 0 <= k < |before|
        ensures Harmless(Run(start, before[..k]), before[k])
      {
        assert before[..k] == steps[..k] && before[k] == steps[k];
      }
      IssuedNumbersAreDistinct(row, before);
      HarmlessKeepsFresh(Run(start, before), row.prefix, steps[|steps| - 1]);
    }
    var s := Run(start, steps);
    forall i, j | 0 <= i < j < |s.issued|
      ensures s.issued[i].text != s.issued[j].text
    {
      var a :| s.issued[i].text == Format(row.prefix, s.issued[i].number, a);
      var b :| s.issued[j].text == Format(row.prefix, s.issued[j].number, b);
      if s.issued[i].text == s.issued[j].text {
        SamePrefixIsInjective(row.prefix, s.issued[i].number, a, s.issued[j].number, b);
      }
    }
  }

  /**
   * An update that is checked and written at once shows in the next document number: it has the prefix,
   * the number and the padding asked for, and what was not asked for is as it was.
   */
  lemma UpdateTakesEffect(s: State, u: Update)
    requires u.prefix.Some? ==> ValidPrefix(u.prefix.value)
    requires u.nextNumber.Some? ==> u.nextNumber.value >= s.row.nextNumber && u.nextNumber.value >= 1
    requires u.padding.Some? ==> 3 <= u.padding.value <= 10
    ensures var after := Run(s, [Check(u), Write(|s.checked|), Issue]);
            var prefix := if u.prefix.None? then s.row.prefix else u.prefix.value;
            var number := if u.nextNumber.None? then s.row.nextNumber else u.nextNumber.value;
            var padding := if u.padding.None? then s.row.padding else u.padding.value;
            && after.issued == s.issued + [Issued(number, Format(prefix, number, padding))]
            && after.row == Row(prefix, number + 1, padding)
  {
    hide ValidPrefix, Format;
    var steps := [Check(u), Write(|s.checked|), Issue];
    assert steps[..2] == [Check(u), Write(|s.checked|)] && steps[..2][..1] == [Check(u)] && steps[..2][..1][..0] == [];
    assert Run(s, []) == s;
    assert Run(s, [Check(u)]) == Next(s, Check(u));
    assert Run(s, steps[..2]) == Next(Next(s, Check(u)), Write(|s.checked|));
  }

  /** One that lowers the number, or asks for an impossible prefix or padding, is not taken. */
  lemma UpdateRefused(s: State, u: Update)
    requires || (u.prefix.Some? && !ValidPrefix(u.prefix.value)) || (u.nextNumber.Some? && (u.nextNumber.value < s.row.nextNumber || u.nextNumber.value < 1))
             || (u.padding.Some? && !(3 <= u.padding.value <= 10))
    ensures Next(s, Check(u)) == s
  {
    hide ValidPrefix;
  }

  /**
   * An update that is written after numbers have been issued under it sets the number back exactly when
   * the sequence has moved past its value meanwhile, and then the numbers from there on are issued again.
   */
  lemma LateWriteIssuesAgain(row: Row, ahead: nat, issues: nat)
    requires row.nextNumber >= 1 && issues > 0
    ensures var u := Update(None, Some(row.nextNumber + ahead), None);
            var s := Run(State(row, [], []), [Check(u)] + seq(issues, _ => Issue));
            && Acceptable(row, u) && s.checked == [u]
            && (Harmless(s, Write(0)) <==> issues <= ahead)
            && (issues > ahead ==>
                  var again := Next(Next(s, Write(0)), Issue).issued;
                  |again| == issues + 1 && again[issues] == again[ahead])
  {
    var u := Update(None, Some(row.nextNumber + ahead), None);
    IssuedInARow(row, u, issues);
  }

  lemma {:induction false} IssuedInARow(row: Row, u: Update, issues: nat)
    requires Acceptable(row, u)
    ensures Run(State(row, [], []), [Check(u)] + seq(issues, _ => Issue))
         == State(row.(nextNumber := row.nextNumber + issues), [u],
                  seq(issues, i requires 0 <= i < issues => Issued(row.nextNumber + i, Format(row.prefix, row.nextNumber + i, row.padding))))
  {
    hide Format;
    var steps := [Check(u)] + seq(issues, _ => Issue);
    if issues == 0 {
      assert steps == [Check(u)] && steps[..0] == [];
      assert Run(State(row, [], []), steps[..0]) == State(row, [], []);
    } else {
      assert steps[..|steps| - 1] == [Check(u)] + seq(issues - 1, _ => Issue);
      IssuedInARow(row, u, issues - 1);
    }
  }
}
