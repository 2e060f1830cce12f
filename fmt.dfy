/** `fmt.Sprintf(format)` called with a format and no operands, as the
    notifier does with an article title. The directive after each `%` is read
    the way Go's printer reads it: flags, an optional `[n]` argument index, a
    width (digits or `*`), an optional `.` precision (digits or `*`, again
    after an optional `[n]`), another `[n]`, then the verb. With no operands:
    - `%%` prints one percent sign;
    - a `*` width or precision prints `%!(BADWIDTH)` or `%!(BADPREC)`;
    - a verb after any `[n]` prints `%!v(BADINDEX)`, otherwise `%!v(MISSING)`;
    - a number that grows past 10^6, or a `%` with no verb after it, prints
      `%!(NOVERB)` and ends the output. */
module Fmt {

  /** Go's `tooLarge` bound on widths, precisions and argument indices. */
  const MaxNum: nat := 1000000

  predicate IsFlag(c: char)
  {
    c == '#' || c == '0' || c == '+' || c == '-' || c == ' '
  }

  predicate IsDigit(c: char)
  {
    '0' <= c <= '9'
  }

  function SkipFlags(f: string, i: nat): (j: nat)
    requires i <= |f|
    ensures i <= j <= |f|
    ensures forall k :: i <= k < j ==> IsFlag(f[k])
    ensures j < |f| ==> !IsFlag(f[j])
    decreases |f| - i
  {
    if i < |f| && IsFlag(f[i]) then SkipFlags(f, i + 1) else i
  }

  /** The result of `parsenum(f, i, end)`: the value read so far, whether a
      digit was seen, and where reading stopped. */
  datatype Num = Num(value: nat, isNum: bool, next: nat)

  /** `parsenum`: digits from `i` up to `end`, with `acc` and `seen` the
      value and digit flag so far. Before each digit the value is checked
      against 10^6; past it, the number is abandoned and reading jumps to
      `end`. */
  function ParseNum(f: string, i: nat, end: nat, acc: nat, seen: bool): (r: Num)
    requires i <= end <= |f|
    ensures i <= r.next <= end
    ensures r.next < end ==> r.isNum == (seen || r.next > i) && !IsDigit(f[r.next])
    decreases end - i
  {
    if i < end && IsDigit(f[i]) then
      if acc > MaxNum then Num(0, false, end)
      else ParseNum(f, i + 1, end, acc * 10 + (f[i] as int - '0' as int), true)
    else Num(acc, seen, i)
  }

  /** The first position at or after `i` holding `c`, or `|f|`. */
  function FindFrom(f: string, i: nat, c: char): (k: nat)
    requires i <= |f|
    ensures i <= k <= |f|
    ensures forall j :: i <= j < k ==> f[j] != c
    ensures k < |f| ==> f[k] == c
    decreases |f| - i
  {
    if i == |f| || f[i] == c then i else FindFrom(f, i + 1, c)
  }

  /** The result of `argNumber` at `i`: where reading goes on, whether a
      well-formed `[n]` was found, and whether an index was attempted at all.
      With no operands every index is out of range, so any `[` spoils the
      verb that follows. */
  datatype ArgIndex = ArgIndex(next: nat, found: bool, bad: bool)

  /** `argNumber` together with `parseArgNumber`: a `[` followed, at least
      three characters from the end, by a `]` closing a non-empty run of
      digits is a well-formed index; otherwise a `[` is skipped alone, or up
      to and including the first `]` after it. */
  function ArgNumber(f: string, i: nat): (r: ArgIndex)
    requires i <= |f|
    ensures i <= r.next <= |f|
    ensures r.bad <==> i < |f| && f[i] == '['
    ensures !r.bad ==> r.next == i && !r.found
    ensures r.bad ==> i < r.next
  {
    if i >= |f| || f[i] != '[' then ArgIndex(i, false, false)
    else if |f| - i < 3 then ArgIndex(i + 1, false, true)
    else
      var close := FindFrom(f, i + 1, ']');
      if close == |f| then ArgIndex(i + 1, false, true)
      else
        var n := ParseNum(f, i + 1, close, 0, false);
        ArgIndex(close + 1, n.isNum && n.next == close, true)
  }

  /** What one directive prints, where the text after it starts, and whether
      it ended the output. */
  datatype Directive = Directive(out: string, next: nat, stop: bool)

  /** The width, the precision and the verb of a directive whose `%` stands
      just before `i`. */
  function ReadDirective(f: string, i: nat): (d: Directive)
    requires i <= |f|
    ensures !d.stop ==> i < d.next <= |f|
  {
    var j1 := SkipFlags(f, i);
    var a1 := ArgNumber(f, j1);
    var j2 := a1.next;
    // the width
    var starWidth := j2 < |f| && f[j2] == '*';
    var j3 := if starWidth then j2 + 1 else ParseNum(f, j2, |f|, 0, false).next;
    var afterIndex1 := if starWidth then false else a1.found;
    var out1 := if starWidth then "%!(BADWIDTH)" else "";
    // the precision
    var hasPrec := j3 + 1 < |f| && f[j3] == '.';
    var a2 := if hasPrec then ArgNumber(f, j3 + 1) else ArgIndex(j3, afterIndex1, false);
    var j4 := a2.next;
    var starPrec := hasPrec && j4 < |f| && f[j4] == '*';
    var j5 := if !hasPrec then j4 else if starPrec then j4 + 1 else ParseNum(f, j4, |f|, 0, false).next;
    var afterIndex2 := if starPrec then false else a2.found;
    var out2 := if starPrec then "%!(BADPREC)" else "";
    // a last argument index, unless one came just before
    var a3 := if afterIndex2 then ArgIndex(j5, true, false) else ArgNumber(f, j5);
    var j6 := a3.next;
    var bad := a1.bad || a2.bad || a3.bad;
    if j6 >= |f| then Directive(out1 + out2 + "%!(NOVERB)", |f|, true)
    else
      var verb := f[j6];
      var text := if verb == '%' then "%"
                  else if bad then "%!" + [verb] + "(BADINDEX)"
                  else "%!" + [verb] + "(MISSING)";
      Directive(out1 + out2 + text, j6 + 1, false)
  }

  /** `fmt.Sprintf(f)`: text outside directives is copied; each directive
      prints what ReadDirective says, and one that stops ends the output. A
      format with no `%` in it prints as itself. */
  function Sprintf0(f: string): (r: string)
    ensures '%' !in f ==> r == f
    decreases |f|
  {
    if f == [] then ""
    else if f[0] != '%' then
      assert forall c :: c in f[1..] ==> c in f;
      assert f == [f[0]] + f[1..];
      [f[0]] + Sprintf0(f[1..])
    else
      var d := ReadDirective(f, 1);
      if d.stop then d.out else d.out + Sprintf0(f[d.next..])
  }

  /** `%%` collapses to one percent sign. */
  lemma Sprintf0EscapedPercent(rest: string)
    ensures Sprintf0("%%" + rest) == "%" + Sprintf0(rest)
  {
    var f := "%%" + rest;
    assert f[1] == '%';
    assert ReadDirective(f, 1) == Directive("%", 2, false);
    assert f[2..] == rest;
  }

  /** A directive whose verb is a letter, with neither `*` nor `[` in it,
      prints that its operand is missing. */
  lemma Sprintf0MissingOperand(v: char, rest: string)
    requires 'a' <= v <= 'z'
    ensures Sprintf0("%" + [v] + rest) == "%!" + [v] + "(MISSING)" + Sprintf0(rest)
  {
    var f := "%" + [v] + rest;
    assert f[1] == v;
    assert ReadDirective(f, 1) == Directive("%!" + [v] + "(MISSING)", 2, false);
    assert f[2..] == rest;
  }

  /** A `*` width has no operand to take its value from. */
  lemma Sprintf0StarWidth(rest: string)
    ensures Sprintf0("%*d" + rest) == "%!(BADWIDTH)%!d(MISSING)" + Sprintf0(rest)
  {
    var f := "%*d" + rest;
    assert f[1] == '*' && f[2] == 'd';
    assert ReadDirective(f, 1) == Directive("%!(BADWIDTH)" + "%!d(MISSING)", 3, false);
    assert f[3..] == rest;
  }

  /** An argument index names an operand that is not there. */
  lemma Sprintf0ArgIndex(rest: string)
    ensures Sprintf0("%[1]d" + rest) == "%!d(BADINDEX)" + Sprintf0(rest)
  {
    var f := "%[1]d" + rest;
    assert f[1] == '[' && f[2] == '1' && f[3] == ']' && f[4] == 'd';
    assert FindFrom(f, 2, ']') == 3;
    assert ParseNum(f, 2, 3, 0, false) == Num(1, true, 3);
    assert ArgNumber(f, 1) == ArgIndex(4, true, true);
    assert ReadDirective(f, 1) == Directive("%!d(BADINDEX)", 5, false);
    assert f[5..] == rest;
  }

  /** A width past 10^6 abandons the directive and the rest of the format. */
  lemma Sprintf0HugeWidth(rest: string)
    ensures Sprintf0("%12345678d" + rest) == "%!(NOVERB)"
  {
    var f := "%12345678d" + rest;
    assert f[1..10] == "12345678d";
    var stop := Num(0, false, |f|);
    assert ParseNum(f, 8, |f|, 1234567, true) == stop;
    assert ParseNum(f, 7, |f|, 123456, true) == stop;
    assert ParseNum(f, 6, |f|, 12345, true) == stop;
    assert ParseNum(f, 5, |f|, 1234, true) == stop;
    assert ParseNum(f, 4, |f|, 123, true) == stop;
    assert ParseNum(f, 3, |f|, 12, true) == stop;
    assert ParseNum(f, 2, |f|, 1, true) == stop;
    assert ParseNum(f, 1, |f|, 0, false) == stop;
    assert ReadDirective(f, 1).stop;
  }
}
