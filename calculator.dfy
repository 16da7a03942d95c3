/**
 * The calculator dialog's input line (ui/calculator_view.py): the string
 * `current` is edited key by key and shown in the display, and "=" hands it to
 * the evaluator of core/calculator.py. The evaluator itself is Python's `eval`
 * behind a character guard; the guard is modelled and the arithmetic is a
 * parameter.
 */
module CalculatorView {
  import opened Wrappers

  /** Characters the number pattern `[\d.]+` matches. */
  predicate IsDigit(c: char) {
    '0' <= c <= '9'
  }

  predicate IsNumberChar(c: char) {
    IsDigit(c) || c == '.'
  }

  /** The four operator keys: plus, minus, times and divide. */
  predicate IsOperator(c: char) {
    c == '+' || c == '-' || c == '*' || c == '/'
  }

  /** Every character of `s` from `lo` up to `hi` is a digit or a point. */
  predicate NumbersBetween(s: string, lo: nat, hi: nat)
    requires lo <= hi <= |s|
  {
    forall i | lo <= i < hi :: IsNumberChar(s[i])
  }

  /** No character of `s` from `lo` up to `hi` is a digit or a point. */
  predicate NoNumbersBetween(s: string, lo: nat, hi: nat)
    requires lo <= hi <= |s|
  {
    forall i | lo <= i < hi :: !IsNumberChar(s[i])
  }

  predicate NoNumberChar(s: string) {
    NoNumbersBetween(s, 0, |s|)
  }

  /** The end of the last match of `[\d.]+` within the first `n` characters of `s`, or 0 when there is none. */
  function RunEndBefore(s: string, n: nat): (e: nat)
    requires n <= |s|
    ensures e <= n
    ensures e == 0 ==> NoNumbersBetween(s, 0, n)
    ensures e > 0 ==> IsNumberChar(s[e - 1]) && NoNumbersBetween(s, e, n)
  {
    if n == 0 then 0
    else if IsNumberChar(s[n - 1]) then n
    else RunEndBefore(s, n - 1)
  }

  /** The end of the last match of `[\d.]+` in `s`, or 0 when there is none. */
  function LastRunEnd(s: string): (e: nat)
    ensures e <= |s|
    ensures e == 0 <==> NoNumberChar(s)
    ensures e > 0 ==> IsNumberChar(s[e - 1]) && NoNumbersBetween(s, e, |s|)
  {
    var e := RunEndBefore(s, |s|);
    assert e > 0 ==> !NoNumbersBetween(s, 0, |s|) by {
      if e > 0 {
        assert IsNumberChar(s[e - 1]);
      }
    }
    e
  }

  /** The start of the run of number characters that ends at `e`. */
  function RunStart(s: string, e: nat): (b: nat)
    requires e <= |s|
    ensures b <= e
    ensures NumbersBetween(s, b, e)
    ensures b == 0 || !IsNumberChar(s[b - 1])
  {
    if e == 0 || !IsNumberChar(s[e - 1]) then e
    else RunStart(s, e - 1)
  }

  /** The start of the last match of `[\d.]+` in `s`. */
  function LastRunStart(s: string): (b: nat)
    ensures b <= LastRunEnd(s)
    ensures LastRunEnd(s) > 0 ==> b < LastRunEnd(s)
  {
    RunStart(s, LastRunEnd(s))
  }

  /**
   * `_get_last_number`: the last maximal run of digits and points, or "" when
   * `s` has none.
   */
  function LastNumber(s: string): (r: string)
    ensures forall i | 0 <= i < |r| :: IsNumberChar(r[i])
    ensures r == [] <==> NoNumberChar(s)
  {
    var b, e := LastRunStart(s), LastRunEnd(s);
    if e == 0 then []
    else
      assert s[b..e][e - 1 - b] == s[e - 1];
      s[b..e]
  }

  /** Characters after the first `n` do not move where a run before them ends or starts. */
  lemma {:induction false} RunsSnoc(s: string, c: char, n: nat)
    requires n <= |s|
    ensures RunEndBefore(s + [c], n) == RunEndBefore(s, n)
    ensures RunStart(s + [c], n) == RunStart(s, n)
  {
    if n > 0 {
      assert (s + [c])[n - 1] == s[n - 1];
      RunsSnoc(s, c, n - 1);
    }
  }

  /** Appending a number character extends the last run when `s` ends in one, and starts a new run otherwise. */
  lemma LastNumberSnoc(s: string, c: char)
    requires IsNumberChar(c)
    ensures LastNumber(s + [c]) == (if s != [] && IsNumberChar(s[|s| - 1]) then LastNumber(s) else []) + [c]
  {
    var t := s + [c];
    assert t[|s|] == c;
    assert LastRunEnd(t) == |t|;
    RunsSnoc(s, c, |s|);
    assert LastRunStart(t) == RunStart(s, |s|);
    if s != [] && IsNumberChar(s[|s| - 1]) {
      assert LastRunEnd(s) == |s|;
      var b := RunStart(s, |s|);
      assert t[b..|t|] == s[b..|s|] + [c];
    }
  }

  /** Where the text after the last `sep` within the first `n` characters of `s` begins. */
  function AfterLastSep(s: string, sep: char, n: nat): (k: nat)
    requires n <= |s|
    ensures k <= n
    ensures forall i | k <= i < n :: s[i] != sep
    ensures k == 0 || s[k - 1] == sep
  {
    if n == 0 then 0
    else if s[n - 1] == sep then n
    else AfterLastSep(s, sep, n - 1)
  }

  /** The text after the last `sep`, i.e. the last element of `s.split(sep)`. */
  function LastSplitPart(s: string, sep: char): (r: string)
    ensures |r| <= |s| && r == s[|s| - |r|..]
    ensures sep !in r
    ensures |r| < |s| ==> s[|s| - |r| - 1] == sep
  {
    s[AfterLastSep(s, sep, |s|)..]
  }

  /** What a digit key makes of `current` (ui/calculator_view.py:133-148). */
  function AfterDigit(current: string, key: char): (r: string)
    requires IsDigit(key)
    ensures current == "" && key == '0' ==> r == "0"
    ensures current == "0" ==> r == [key]
    ensures current != "" && IsOperator(current[|current| - 1]) ==> r == current + [key]
    ensures r == current || r == current + [key] || (current == "0" && r == [key])
    ensures r == current <==>
      key == '0' && (current == "0" || (current != "" && !IsOperator(current[|current| - 1]) && LastSplitPart(current, '/') == "0"))
  {
    if current == "" && key == '0' then "0"
    else if current == "0" && key == '0' then current
    else if current == "0" && key != '.' then [key]
    else if current != "" && IsOperator(current[|current| - 1]) && key == '0' then current + [key]
    else if LastSplitPart(current, '/') == "0" && key == '0' then current
    else current + [key]
  }

  /**
   * The leading-zero rule looks only at the text after the last '/': a second
   * zero after "5/" is refused, but after "5+" it is accepted.
   */
  lemma LeadingZeroRuleLooksAfterSlashOnly()
    ensures AfterDigit("5/0", '0') == "5/0"
    ensures AfterDigit("5+0", '0') == "5+00"
    ensures AfterDigit("0", '0') == "0"
    ensures AfterDigit("0", '7') == "7"
  {
    assert LastSplitPart("5/0", '/') == "0" by {
      assert "5/0"[..2] == "5/";
      assert LastSplitPart("5/", '/') == [];
    }
    assert LastSplitPart("5+0", '/') == "5+0" by {
      assert "5+0"[..2] == "5+" && "5+"[..1] == "5" && "5"[..0] == [];
    }
  }

  /** What the "." key makes of `current` (ui/calculator_view.py:150-156). */
  function AfterPoint(current: string): (r: string)
    ensures '.' in LastNumber(current) ==> r == current
    ensures '.' !in LastNumber(current) && (current == "" || IsOperator(current[|current| - 1])) ==> r == current + "0."
    ensures '.' !in LastNumber(current) && current != "" && !IsOperator(current[|current| - 1]) ==> r == current + "."
  {
    var lastNum := LastNumber(current);
    if '.' !in lastNum then
      if current == "" || IsOperator(current[|current| - 1]) then current + "0."
      else current + "."
    else current
  }

  /**
   * After an accepted ".", the number being typed holds exactly one point; a
   * refused one leaves `current` unchanged.
   */
  lemma PointOncePerNumber(current: string)
    ensures AfterPoint(current) != current ==> multiset(LastNumber(AfterPoint(current)))['.'] == 1
  {
    var last := LastNumber(current);
    if '.' !in last {
      if current == "" || IsOperator(current[|current| - 1]) {
        NewNumberAfterOperator(current);
      } else {
        PointExtendsNumber(current);
      }
    }
  }

  /** "0." typed where no number ends starts a number of its own. */
  lemma NewNumberAfterOperator(current: string)
    requires current == "" || IsOperator(current[|current| - 1])
    ensures LastNumber(current + "0.") == "0."
  {
    var t := current + "0";
    assert current + "0." == t + ".";
    LastNumberSnoc(current, '0');
    assert LastNumber(t) == "0";
    LastNumberSnoc(t, '.');
    assert t[|t| - 1] == '0';
  }

  /** A point typed after a number without one gives that number exactly one point. */
  lemma PointExtendsNumber(current: string)
    requires current != [] && '.' !in LastNumber(current)
    ensures multiset(LastNumber(current + "."))['.'] == 1
  {
    var last := LastNumber(current);
    assert multiset(last)['.'] == 0;
    LastNumberSnoc(current, '.');
    var before: string := if IsNumberChar(current[|current| - 1]) then last else [];
    assert multiset(before)['.'] == 0;
    assert LastNumber(current + ".") == before + ".";
    assert multiset(before + ".") == multiset(before) + multiset{'.'};
  }

  /** After a decimal operand and an operator, "." is refused, because the last number already has a point. */
  lemma PointRefusedAfterDecimalOperand()
    ensures AfterPoint("1.5+") == "1.5+"
  {
    var s := "1.5+";
    assert s[3] == '+' && s[2] == '5' && s[1] == '.' && s[0] == '1';
    assert RunEndBefore(s, 4) == RunEndBefore(s, 3) == 3;
    assert RunStart(s, 3) == RunStart(s, 0) == 0;
    assert LastNumber(s)[1] == '.';
  }

  /** What an operator key makes of `current` (ui/calculator_view.py:157-159). */
  function AfterOperator(current: string, key: char): (r: string)
    requires IsOperator(key)
    ensures r == current <==> current == "" || IsOperator(current[|current| - 1]) || current[|current| - 1] == '.'
    ensures r != current ==> r == current + [key]
  {
    if current != "" && !IsOperator(current[|current| - 1]) && current[|current| - 1] != '.' then current + [key]
    else current
  }

  /** No two operators stand next to each other. */
  predicate NoAdjacentOperators(s: string) {
    forall i | 0 < i < |s| :: !(IsOperator(s[i - 1]) && IsOperator(s[i]))
  }

  /** Appending a character that is not an operator, or one after a non-operator, keeps operators apart. */
  lemma AppendKeepsOperatorsApart(s: string, c: char)
    requires NoAdjacentOperators(s)
    requires !IsOperator(c) || s == [] || !IsOperator(s[|s| - 1])
    ensures NoAdjacentOperators(s + [c])
  {
    var t := s + [c];
    forall i | 0 < i < |t|
      ensures !(IsOperator(t[i - 1]) && IsOperator(t[i]))
    {
      if i < |s| {
        assert t[i - 1] == s[i - 1] && t[i] == s[i];
      }
    }
  }

  /**
   * The digit, point and operator keys and backspace never put two operators
   * next to each other.
   */
  lemma KeysNeverDoubleOperators(current: string, digit: char, op: char)
    requires NoAdjacentOperators(current) && IsDigit(digit) && IsOperator(op)
    ensures NoAdjacentOperators(AfterDigit(current, digit))
    ensures NoAdjacentOperators(AfterPoint(current))
    ensures NoAdjacentOperators(AfterOperator(current, op))
    ensures NoAdjacentOperators(AfterBackspace(current))
  {
    AppendKeepsOperatorsApart(current, digit);
    assert NoAdjacentOperators([digit]);
    AppendKeepsOperatorsApart(current, '.');
    AppendKeepsOperatorsApart(current, '0');
    AppendKeepsOperatorsApart(current + "0", '.');
    assert current + "0." == (current + "0") + ".";
    if AfterOperator(current, op) != current {
      AppendKeepsOperatorsApart(current, op);
    }
    var b := AfterBackspace(current);
    assert forall i | 0 <= i < |b| :: b[i] == current[i];
  }

  /** What "+/-" makes of `current` (ui/calculator_view.py:102-115). */
  function ToggleSign(current: string): (r: string)
    ensures NoNumberChar(current) ==> r == current
    ensures !NoNumberChar(current) ==>
      var b := LastRunStart(current);
      if b > 0 && current[b - 1] == '-' then r == current[..b - 1] + current[b..]
      else r == current[..b] + "-" + current[b..]
  {
    if current == "" then current
    else if LastRunEnd(current) == 0 then current
    else
      var start := LastRunStart(current);
      if start > 0 && current[start - 1] == '-' then current[..start - 1] + current[start..]
      else current[..start] + "-" + current[start..]
  }

  /** Inserting a character before position `b` moves every later run end by one. */
  lemma {:induction false} RunEndShift(s: string, t: string, b: nat, n: nat)
    requires b < n <= |s| && |t| == |s| + 1
    requires forall i | b < i <= |s| :: t[i] == s[i - 1]
    requires b < RunEndBefore(s, n)
    ensures RunEndBefore(t, n + 1) == RunEndBefore(s, n) + 1
  {
    assert t[n] == s[n - 1];
    if !IsNumberChar(s[n - 1]) {
      RunEndShift(s, t, b, n - 1);
    }
  }

  /** A run of `s` that starts at `b` is found in `t` starting at `b + 1`, behind the inserted character. */
  lemma {:induction false} RunStartShift(s: string, t: string, b: nat, e: nat)
    requires b <= e <= |s| && |t| == |s| + 1
    requires forall i | b < i <= |s| :: t[i] == s[i - 1]
    requires NumbersBetween(s, b, e) && !IsNumberChar(t[b])
    ensures RunStart(t, e + 1) == b + 1
  {
    if e > b {
      assert t[e] == s[e - 1];
      RunStartShift(s, t, b, e - 1);
    }
  }

  /** Inserting a character that is not a number character in front of the last run keeps the run, shifted by one. */
  lemma InsertKeepsLastRun(s: string, c: char)
    requires !NoNumberChar(s) && !IsNumberChar(c)
    ensures var b := LastRunStart(s);
      var t := s[..b] + [c] + s[b..];
      LastRunEnd(t) == LastRunEnd(s) + 1 && LastRunStart(t) == b + 1
  {
    var b, e := LastRunStart(s), LastRunEnd(s);
    var t := s[..b] + [c] + s[b..];
    assert |t| == |s| + 1 && t[b] == c;
    assert forall i | b < i <= |s| :: t[i] == s[i - 1];
    RunEndShift(s, t, b, |s|);
    RunStartShift(s, t, b, e);
  }

  /**
   * "+/-" twice gives back what was typed, as long as the number was not
   * already preceded by a '-'.
   */
  lemma ToggleSignTwice(current: string)
    requires !NoNumberChar(current)
    requires var b := LastRunStart(current); b == 0 || current[b - 1] != '-'
    ensures ToggleSign(ToggleSign(current)) == current
  {
    var b := LastRunStart(current);
    var t := current[..b] + ['-'] + current[b..];
    assert ToggleSign(current) == t;
    InsertKeepsLastRun(current, '-');
    ToggleSignDropsMinus(t, b);
    InsertThenRemove(current, b, '-');
  }

  /** A '-' right before the last number is what "+/-" takes away. */
  lemma ToggleSignDropsMinus(t: string, b: nat)
    requires b < |t| && t[b] == '-'
    requires LastRunEnd(t) > 0 && LastRunStart(t) == b + 1
    ensures ToggleSign(t) == t[..b] + t[b + 1..]
  {
  }

  /** The '-' in front of the last number is removed even when it is a binary minus. */
  lemma ToggleSignRemovesBinaryMinus()
    ensures ToggleSign("5-3") == "53"
  {
    var s := "5-3";
    assert LastRunEnd(s) == 3;
    assert RunStart(s, 3) == 2 by {
      assert RunStart(s, 2) == 2;
    }
  }

  /** "+/-" after an operator puts '-' right behind it, so two operators can stand together. */
  lemma ToggleSignCanFollowOperator()
    ensures ToggleSign("5+3") == "5+-3"
    ensures !NoAdjacentOperators(ToggleSign("5+3"))
  {
    var s := "5+3";
    assert LastRunEnd(s) == 3;
    assert RunStart(s, 3) == 2 by {
      assert RunStart(s, 2) == 2;
    }
    var t := ToggleSign(s);
    assert t == "5+-3";
    assert IsOperator(t[1]) && IsOperator(t[2]);
  }

  /** `self.current[:-1]`. */
  function AfterBackspace(current: string): (r: string)
    ensures current == "" ==> r == ""
    ensures current != "" ==> r + [current[|current| - 1]] == current
  {
    if current == "" then "" else current[..|current| - 1]
  }

  /** Characters the evaluator accepts (core/calculator.py:4). */
  const ALLOWED: string := "0123456789.+-*/() "

  const ERROR: string := "Blad"

  /** The value `"blad"` that the "=" key compares its result with. */
  const RESET_MARKER: string := "blad"

  /**
   * `Calculator.evaluate`: any character outside ALLOWED gives "Blad";
   * otherwise the result is whatever `arith` returns for the expression,
   * where `arith` stands for `str(eval(...))` with "Blad" on an exception.
   */
  function Evaluate(expression: string, arith: string -> string): (r: string)
    ensures (exists i | 0 <= i < |expression| :: expression[i] !in ALLOWED) ==> r == ERROR
    ensures (forall i | 0 <= i < |expression| :: expression[i] in ALLOWED) ==> r == arith(expression)
  {
    if exists i | 0 <= i < |expression| :: expression[i] !in ALLOWED then ERROR
    else arith(expression)
  }

  /** `update_display`: the text shown for `current`. */
  function Shown(current: string): (text: string)
    ensures text != ""
    ensures current == "" || current == RESET_MARKER ==> text == "0"
    ensures current != "" && current != RESET_MARKER ==> text == current
  {
    if current == "" || current == RESET_MARKER then "0" else current
  }

  /** What "=" leaves in `current`: the result, or "" when the result is "blad". */
  function AfterEquals(current: string, arith: string -> string): (r: string)
    ensures r == "" || r == Evaluate(current, arith)
    ensures r == "" <==> Evaluate(current, arith) == "" || Evaluate(current, arith) == RESET_MARKER
  {
    var result := Evaluate(current, arith);
    if result == RESET_MARKER then "" else result
  }

  /**
   * The evaluator reports errors as "Blad" but "=" resets only on "blad", so an
   * error is kept in `current` and shown, and the next keys are appended to it.
   */
  lemma ErrorIsNotCleared(current: string, arith: string -> string, i: nat)
    requires i < |current| && current[i] !in ALLOWED
    ensures AfterEquals(current, arith) == ERROR
    ensures Shown(AfterEquals(current, arith)) == ERROR
    ensures AfterDigit(AfterEquals(current, arith), '7') == ERROR + "7"
  {
    assert ERROR != RESET_MARKER by {
      assert ERROR[0] != RESET_MARKER[0];
    }
    assert ERROR != "0";
    assert LastSplitPart(ERROR, '/') != "0" by {
      assert |LastSplitPart(ERROR, '/')| <= 4;
    }
  }

  /** The calculator dialog: the input `current` and the text of its display. */
  class CalculatorDialog {
    var current: string
    var display: string

    /** The display always shows `current` as `update_display` renders it. */
    ghost predicate Valid()
      reads this
    {
      display == Shown(current)
    }

    constructor ()
      ensures Valid() && current == ""
    {
      current := "";
      display := Shown("");
    }

    method PressDigit(key: char)
      requires Valid() && IsDigit(key)
      modifies this
      ensures Valid() && current == AfterDigit(old(current), key)
    {
      if current == "" && key == '0' {
        current := "0";
      } else if current == "0" && key == '0' {
        return;
      } else if current == "0" && key != '.' {
        current := [key];
      } else {
        if current != "" && IsOperator(current[|current| - 1]) && key == '0' {
          current := current + [key];
        } else {
          var last := LastSplitPart(current, '/');
          if last == "0" && key == '0' {
            return;
          }
          current := current + [key];
        }
      }
      UpdateDisplay();
    }

    method PressPoint()
      requires Valid()
      modifies this
      ensures Valid() && current == AfterPoint(old(current))
    {
      var lastNum := GetLastNumber();
      if '.' !in lastNum {
        if current == "" || IsOperator(current[|current| - 1]) {
          current := current + "0.";
        } else {
          current := current + ".";
        }
      }
      UpdateDisplay();
    }

    method PressOperator(key: char)
      requires Valid() && IsOperator(key)
      modifies this
      ensures Valid() && current == AfterOperator(old(current), key)
    {
      if current != "" && !IsOperator(current[|current| - 1]) && current[|current| - 1] != '.' {
        current := current + [key];
      }
      UpdateDisplay();
    }

    method PressToggleSign()
      requires Valid()
      modifies this
      ensures Valid() && current == ToggleSign(old(current))
    {
      ghost var before := current;
      if current != "" {
        var end := LastRunEnd(current);
        if end > 0 {
          var start := RunStart(current, end);
          var edited: string;
          if start > 0 && current[start - 1] == '-' {
            edited := current[..start - 1] + current[start..];
          } else {
            edited := current[..start] + "-" + current[start..];
          }
          assert edited == ToggleSign(before);
          current := edited;
        }
      }
      UpdateDisplay();
    }

    /** "=": the display shows the result before a "blad" result is reset to "". */
    method PressEquals(arith: string -> string)
      requires Valid()
      modifies this
      ensures Valid() && current == AfterEquals(old(current), arith)
      ensures display == Shown(Evaluate(old(current), arith))
    {
      current := Evaluate(current, arith);
      UpdateDisplay();
      if current == RESET_MARKER {
        current := "";
      }
    }

    /** `_get_last_number`. */
    method GetLastNumber() returns (r: string)
      ensures r == LastNumber(current)
    {
      return LastNumber(current);
    }

    method UpdateDisplay()
      modifies this
      ensures current == old(current) && Valid()
    {
      display := Shown(current);
    }

    method ClearDisplay()
      modifies this
      ensures Valid() && current == ""
    {
      current := "";
      UpdateDisplay();
    }

    method Backspace()
      modifies this
      ensures Valid() && current == AfterBackspace(old(current))
    {
      current := if current == "" then "" else current[..|current| - 1];
      UpdateDisplay();
    }
  }
}
