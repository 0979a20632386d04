/**
 The lines a crash leaves, formatted into a fixed buffer without allocating: a line too long is cut,
 never overrun, and what it quotes is cut inside its quotes so that all after it is kept.
 */
module CrashLines {
  import opened Common

  const LINE_CAPACITY := 512

  // ---------------------------------------------------------------- text that may be cut

  function Min(a: int, b: int): int { if a < b then a else b }

  /** `c` after `s`, if room for `reserve` more is then left. */
  function Put(s: string, c: char, reserve: nat, capacity: nat): string {
    if |s| + 1 + reserve <= capacity then s + [c] else s
  }

  /** `text` after `s`, cut where only a newline's room is left. */
  function PutAll(s: string, text: string, capacity: nat): string
    requires |s| < capacity
  {
    s + text[..Min(|text|, capacity - 1 - |s|)]
  }

  lemma PutAllTwice(s: string, a: string, b: string, capacity: nat)
    requires |s| < capacity
    ensures |PutAll(s, a, capacity)| < capacity
    ensures PutAll(PutAll(s, a, capacity), b, capacity) == PutAll(s, a + b, capacity)
  {
    var n := capacity - 1 - |s|;
    if |a| <= n {
      assert a[..|a|] == a;
      assert (a + b)[..Min(|a + b|, n)] == a + b[..Min(|b|, n - |a|)];
    } else {
      assert (a + b)[..n] == a[..n];
      assert b[..0] == [];
    }
  }

  // ---------------------------------------------------------------- digits

  const DIGITS := "0123456789abcdef"

  /** A number without its last digit, and that digit. */
  function Upper(value: nat, base: nat): (upper: nat)
    requires base >= 2
    ensures value > 0 ==> upper < value
    ensures value >= base ==> upper > 0
    ensures value < base ==> upper == 0
  {
    value / base
  }

  function Lowest(value: nat, base: nat): (digit: nat)
    requires base >= 2
    ensures digit < base && Upper(value, base) * base + digit == value
  {
    value % base
  }

  function Less(a: nat, b: nat): nat { if a > b then a - b else 0 }

  /** `value` in `base`, zero-padded to `width` digits. */
  function Digits(value: nat, base: nat, width: nat): (text: string)
    requires 2 <= base <= 16
    ensures |text| >= 1
    decreases value + width
  {
    if value < base && width <= 1 then [DIGITS[value]]
    else Digits(Upper(value, base), base, Less(width, 1)) + [DIGITS[Lowest(value, base)]]
  }

  function DigitValue(c: char): nat {
    if '0' <= c <= '9' then c as nat - '0' as nat else if 'a' <= c <= 'f' then c as nat - 'a' as nat + 10 else 0
  }

  function Denoted(text: string, base: nat): nat {
    if text == [] then 0 else Denoted(text[..|text| - 1], base) * base + DigitValue(text[|text| - 1])
  }

  lemma DigitDenotes(d: nat)
    requires d < 16
    ensures DigitValue(DIGITS[d]) == d && (DIGITS[d] == '0' <==> d == 0)
  {}

  lemma DigitsUnfold(value: nat, base: nat, width: nat)
    requires 2 <= base <= 16
    ensures Digits(value, base, width) ==
            if value < base && width <= 1 then [DIGITS[value]]
            else Digits(Upper(value, base), base, Less(width, 1)) + [DIGITS[Lowest(value, base)]]
  {}

  /** The digits denote the value. */
  lemma {:induction false} DigitsDenote(value: nat, base: nat, width: nat)
    requires 2 <= base <= 16
    ensures Denoted(Digits(value, base, width), base) == value
    decreases value + width
  {
    hide Digits, Upper, Lowest;
    DigitsUnfold(value, base, width);
    if value < base && width <= 1 {
      DigitDenotes(value);
      assert [DIGITS[value]][..0] == [];
    } else {
      var rest := Digits(Upper(value, base), base, Less(width, 1));
      DigitsDenote(Upper(value, base), base, Less(width, 1));
      DigitDenotes(Lowest(value, base));
      assert (rest + [DIGITS[Lowest(value, base)]])[..|rest|] == rest;
    }
  }

  predicate IsDigit(c: char, base: nat) {
    || ('0' <= c <= '9' && c as nat - '0' as nat < base)
    || ('a' <= c <= 'f' && c as nat - 'a' as nat + 10 < base)
  }

  /** `text` is `value`, in digits of `base` alone. */
  predicate Numeral(text: string, base: nat, value: nat) {
    text != "" && (forall i :: 0 <= i < |text| ==> IsDigit(text[i], base)) && Denoted(text, base) == value
  }

  lemma {:induction false} DigitsAreNumeral(value: nat, base: nat, width: nat)
    requires 2 <= base <= 16
    ensures Numeral(Digits(value, base, width), base, value)
    decreases value + width
  {
    hide Digits, Upper, Lowest, Denoted;
    DigitsDenote(value, base, width);
    DigitsUnfold(value, base, width);
    if value < base && width <= 1 {
      OneDigit(value, base);
    } else {
      DigitsAreNumeral(Upper(value, base), base, Less(width, 1));
      OneDigit(Lowest(value, base), base);
    }
  }

  lemma OneDigit(d: nat, base: nat)
    requires d < base <= 16
    ensures IsDigit(DIGITS[d], base)
  {
    assert d < 10 ==> DIGITS[d] as nat == '0' as nat + d;
    assert d >= 10 ==> DIGITS[d] as nat == 'a' as nat + (d - 10);
  }

  /** They are as many as asked for, and more only where the first is not 0. */
  lemma {:induction false} DigitsWide(value: nat, base: nat, width: nat)
    requires 2 <= base <= 16
    ensures |Digits(value, base, width)| >= width
    ensures |Digits(value, base, width)| > width && value > 0 ==> Digits(value, base, width)[0] != '0'
    decreases value + width
  {
    hide Digits, Upper, Lowest;
    DigitsUnfold(value, base, width);
    if value < base && width <= 1 {
      DigitDenotes(value);
    } else {
      DigitsWide(Upper(value, base), base, Less(width, 1));
      if Upper(value, base) == 0 { ZeroDigits(base, Less(width, 1)); }
    }
  }

  lemma {:induction false} ZeroDigits(base: nat, width: nat)
    requires 2 <= base <= 16
    ensures |Digits(0, base, width)| == if width > 1 then width else 1
    decreases width
  {
    hide Digits, Upper, Lowest;
    DigitsUnfold(0, base, width);
    if width > 1 { ZeroDigits(base, width - 1); }
  }

  function HexLength(value: nat): nat { if value < 16 then 1 else 1 + HexLength(value / 16) }

  lemma {:induction false} HexLengthIs(value: nat)
    ensures |Digits(value, 16, 1)| == HexLength(value) == |Digits(value, 16, 0)|
  {
    if value >= 16 { HexLengthIs(Upper(value, 16)); }
  }

  function Pow2(n: nat): nat { if n == 0 then 1 else 2 * Pow2(n - 1) }

  // ---------------------------------------------------------------- quoting

  predicate Escaped(c: char) { c == '"' || c == '\\' }

  function EscapeOne(c: char): string { if Escaped(c) then ['\\', c] else [c] }

  function Escape(text: string): string {
    if text == [] then [] else Escape(text[..|text| - 1]) + EscapeOne(text[|text| - 1])
  }

  lemma NothingKept(text: string, room: int)
    requires room < 0
    ensures KeptFrom(text, 0, room) == 0
  {}

  lemma Regroup(a: string, b: string, c: string)
    ensures a + b + c == a + (b + c)
  {}

  lemma KeptEnd(text: string, room: int)
    ensures KeptFrom(text, |text|, room) == |text|
  {}

  lemma KeptNext(text: string, i: nat, room: int)
    requires i < |text|
    ensures KeptFrom(text, i, room) ==
            if |EscapeOne(text[i])| > room then i else KeptFrom(text, i + 1, room - |EscapeOne(text[i])|)
  {}

  /** How much of `text` from `i` on, each character escaped, fits in `room`. */
  function KeptFrom(text: string, i: nat, room: int): (k: nat)
    requires i <= |text|
    ensures i <= k <= |text|
    decreases |text| - i
  {
    if i == |text| || |EscapeOne(text[i])| > room then i
    else KeptFrom(text, i + 1, room - |EscapeOne(text[i])|)
  }

  /** As much is kept as fits: all of it, or all up to a character that does not. */
  lemma {:induction false} KeptFits(text: string, i: nat, room: nat)
    requires i <= |text|
    ensures var k := KeptFrom(text, i, room);
      && |Escape(text[..k])| - |Escape(text[..i])| <= room
      && (k < |text| ==> |Escape(text[..k])| + |EscapeOne(text[k])| - |Escape(text[..i])| > room)
    decreases |text| - i
  {
    if i < |text| && |EscapeOne(text[i])| <= room {
      EscapeUpTo(text, i);
      KeptFits(text, i + 1, room - |EscapeOne(text[i])|);
    }
  }

  lemma EscapeUpTo(text: string, i: nat)
    requires i < |text|
    ensures Escape(text[..i + 1]) == Escape(text[..i]) + EscapeOne(text[i])
  {
    assert text[..i + 1][..i] == text[..i];
  }

  /** What a reader of a quoted string takes up to its closing quote, and what follows it. */
  function Unquote(quoted: string): Option<(string, string)>
    decreases |quoted|
  {
    if quoted == [] then None
    else if quoted[0] == '"' then Some(([], quoted[1..]))
    else if quoted[0] == '\\' then
      if |quoted| < 2 then None
      else
        var rest := Unquote(quoted[2..]);
        if rest.None? then None else Some(([quoted[1]] + rest.value.0, rest.value.1))
    else
      var rest := Unquote(quoted[1..]);
      if rest.None? then None else Some(([quoted[0]] + rest.value.0, rest.value.1))
  }

  function EscapeAll(text: string): string {
    if text == [] then [] else EscapeOne(text[0]) + EscapeAll(text[1..])
  }

  lemma {:induction false} EscapeAppend(a: string, b: string)
    ensures EscapeAll(a + b) == EscapeAll(a) + EscapeAll(b)
  {
    if a == [] {
      assert a + b == b;
    } else {
      assert (a + b)[1..] == a[1..] + b;
      EscapeAppend(a[1..], b);
    }
  }

  lemma {:induction false} EscapeEitherWay(text: string)
    ensures Escape(text) == EscapeAll(text)
  {
    if text != [] {
      var n := |text| - 1;
      EscapeEitherWay(text[..n]);
      EscapeAppend(text[..n], [text[n]]);
      assert text == text[..n] + [text[n]] && [text[n]][1..] == [];
    }
  }

  lemma {:induction false} UnquoteEscaped(text: string, rest: string)
    ensures Unquote(EscapeAll(text) + ['"'] + rest) == Some((text, rest))
  {
    var quoted := EscapeAll(text) + ['"'] + rest;
    if text == [] {
      assert quoted == ['"'] + rest;
    } else {
      var one, after := EscapeOne(text[0]), EscapeAll(text[1..]) + ['"'] + rest;
      assert quoted == one + after;
      UnquoteEscaped(text[1..], rest);
      assert quoted[|one|..] == after;
      assert [text[0]] + text[1..] == text;
    }
  }

  /** What is quoted reads back as it was, with all that follows it. */
  lemma QuotedReadsBack(text: string, rest: string)
    ensures Unquote(Escape(text) + ['"'] + rest) == Some((text, rest))
  {
    EscapeEitherWay(text);
    UnquoteEscaped(text, rest);
  }

  /** `text` escaped after `s`, cut to leave room for the closing quote, `after` more and a newline. */
  function Body(s: string, text: string, after: nat, capacity: nat): (body: string)
    requires |s| < capacity
    ensures |body| < capacity
  {
    var room := capacity - |s| - 2 - after;
    if room < 0 then s
    else
      KeptFits(text, 0, room);
      s + Escape(text[..KeptFrom(text, 0, room)])
  }

  function Quoted(s: string, text: string, after: nat, capacity: nat): (q: string)
    requires |s| < capacity
    ensures |q| < capacity
  {
    Put(Body(Put(s, '"', 1, capacity), text, after, capacity), '"', 1, capacity)
  }

  /** With room for both quotes, all that follows and a newline, the quoted part is whole and closed. */
  lemma QuotedFits(s: string, text: string, after: nat, capacity: nat)
    requires |s| + 3 + after <= capacity
    ensures var k := KeptFrom(text, 0, capacity - |s| - 3 - after);
      && Quoted(s, text, after, capacity) == s + ['"'] + Escape(text[..k]) + ['"']
      && |Quoted(s, text, after, capacity)| + after + 1 <= capacity
  {
    KeptFits(text, 0, capacity - |s| - 3 - after);
    hide KeptFrom, Escape;
    var k := KeptFrom(text, 0, capacity - |s| - 3 - after);
    assert text[..0] == [] && |Escape(text[..0])| == 0 by { EscapeNothing(); }
    assert Put(s, '"', 1, capacity) == s + ['"'];
    assert Body(s + ['"'], text, after, capacity) == s + ['"'] + Escape(text[..k]);
  }

  /** Without that room nothing of the text is quoted, and both quotes are put as far as they fit. */
  lemma QuotedTight(s: string, text: string, after: nat, capacity: nat)
    requires |s| < capacity < |s| + 3 + after
    ensures Quoted(s, text, after, capacity) == PutAll(s, ['"', '"'], capacity)
  {
    hide KeptFrom, Escape;
    assert ['"', '"'][..1] == ['"'] && ['"', '"'][..2] == ['"', '"'] && ['"', '"'][..0] == [];
  }

  lemma EscapeNothing()
    ensures Escape([]) == []
  {}

  // ---------------------------------------------------------------- the writer

  /** Appends to a line, always keeping room for the newline it ends in. */
  class LineWriter {
    const line: array<char>
    var size: nat

    ghost predicate Valid()
      reads this
    {
      size < line.Length
    }

    function Text(): string
      reads this, line
      requires size <= line.Length
    {
      line[..size]
    }

    constructor (line: array<char>)
      requires line.Length > 0
      ensures Valid() && this.line == line && Text() == []
    {
      this.line, size := line, 0;
    }

    method PutOne(c: char, reserve: nat)
      requires Valid() && reserve >= 1
      modifies this`size, line
      ensures Valid() && Text() == Put(old(Text()), c, reserve, line.Length)
    {
      if size + 1 + reserve <= line.Length {
        line[size] := c;
        size := size + 1;
      }
    }

    method PutText(text: string)
      requires Valid()
      modifies this`size, line
      ensures Valid() && Text() == PutAll(old(Text()), text, line.Length)
    {
      var i := 0;
      assert text[..0] == [];
      while i < |text|
        invariant i <= |text| && Valid() && Text() == PutAll(old(Text()), text[..i], line.Length)
      {
        PutAllNext(old(Text()), text, i, line.Length);
        PutOne(text[i], 1);
        i := i + 1;
      }
      assert text[..i] == text;
    }

    /** The digits from the last to the first. */
    method Reversed(value: nat, base: nat, width: nat) returns (digits: array<char>, count: nat)
      requires 2 <= base <= 16 && width <= 64 && value < Pow2(64)
      ensures fresh(digits) && count <= digits.Length && Backwards(digits[..count]) == Digits(value, base, width)
    {
      hide Digits, Upper, Lowest, Pow2;
      // Enough for any 64 bits in base 2 or more.
      digits := new char[64];
      count := 0;
      var left: nat := value;
      assert Digits(left, base, Less(width, 0)) + Backwards(digits[..0]) == Digits(value, base, width);
      while true
        invariant count < 64 && fresh(digits) && digits.Length == 64
        invariant left < Pow2(64 - count)
        invariant Digits(left, base, Less(width, count)) + Backwards(digits[..count]) == Digits(value, base, width)
        decreases 64 - count
      {
        ghost var done := Backwards(digits[..count]);
        DigitsStep(left, base, Less(width, count), done);
        HalfBelow(left, base, 64 - count);
        digits[count] := DIGITS[Lowest(left, base)];
        assert digits[..count + 1] == digits[..count] + [digits[count]];
        assert Backwards(digits[..count + 1]) == [digits[count]] + done;
        left := Upper(left, base);
        count := count + 1;
        if left == 0 && count >= width { break; }
      }
    }

    method PutDigits(value: nat, base: nat, width: nat)
      requires Valid() && 2 <= base <= 16 && width <= 64 && value < Pow2(64)
      modifies this`size, line
      ensures Valid() && Text() == PutAll(old(Text()), Digits(value, base, width), line.Length)
    {
      hide Digits;
      var digits, count := Reversed(value, base, width);
      PutBackwards(digits, count);
    }

    method PutBackwards(digits: array<char>, n: nat)
      requires Valid() && n <= digits.Length && digits != line
      modifies this`size, line
      ensures Valid() && Text() == PutAll(old(Text()), Backwards(digits[..n]), line.Length)
    {
      hide PutAll;
      var count := n;
      ghost var all := digits[..n];
      while count > 0
        invariant 0 <= count <= n <= digits.Length && Valid() && digits[..n] == all
        invariant PutAll(Text(), Backwards(digits[..count]), line.Length)
                  == PutAll(old(Text()), Backwards(all), line.Length)
      {
        count := count - 1;
        BackwardsNext(digits[..count + 1]);
        assert digits[..count + 1][..count] == digits[..count];
        PutOneIs(Text(), digits[count], line.Length);
        PutAllTwice(Text(), [digits[count]], Backwards(digits[..count]), line.Length);
        PutOne(digits[count], 1);
      }
      assert Backwards(digits[..0]) == [];
      PutNothing(Text(), line.Length);
    }

    /** `text` escaped, up to where closing it and `after` more would not fit. */
    method PutBody(text: string, after: nat)
      requires Valid()
      modifies this`size, line
      ensures Valid() && Text() == Body(old(Text()), text, after, line.Length)
    {
      hide KeptFrom, Escape, EscapeOne, Body;
      ghost var start, room: int := Text(), line.Length - size - 2 - after;
      var i := 0;
      EscapeNothing();
      assert text[..0] == [] && start + [] == start;
      while i < |text|
        invariant i <= |text| && Valid() && Text() == start + Escape(text[..i]) && (i > 0 ==> room >= 0)
        invariant KeptFrom(text, 0, room) == KeptFrom(text, i, line.Length - size - 2 - after)
      {
        KeptNext(text, i, line.Length - size - 2 - after);
        EscapeUpTo(text, i);
        if size + |EscapeOne(text[i])| + 2 + after > line.Length { break; }
        Regroup(start, Escape(text[..i]), EscapeOne(text[i]));
        PutOneEscaped(text[i], after);
        i := i + 1;
      }
      if i == |text| { KeptEnd(text, line.Length - size - 2 - after); }
      BodyIs(start, text, after, line.Length, i);
    }

    method PutOneEscaped(c: char, after: nat)
      requires Valid() && size + |EscapeOne(c)| + 2 + after <= line.Length
      modifies this`size, line
      ensures Valid() && Text() == old(Text()) + EscapeOne(c)
    {
      if c == '"' || c == '\\' { PutOne('\\', 2 + after); }
      PutOne(c, 2 + after);
    }

    /** `text` in double quotes, its quotes and backslashes escaped. */
    method PutQuoted(text: string, after: nat)
      requires Valid()
      modifies this`size, line
      ensures Valid() && Text() == Quoted(old(Text()), text, after, line.Length)
    {
      PutOne('"', 1);
      PutBody(text, after);
      PutOne('"', 1);
    }

    method Finish() returns (text: string)
      requires Valid()
      modifies this`size, line
      ensures size <= line.Length && text == old(Text()) + ['\n'] == Text()
    {
      line[size] := '\n';
      size := size + 1;
      return line[..size];
    }
  }

  lemma BodyIs(s: string, text: string, after: nat, capacity: nat, k: nat)
    requires |s| < capacity && k <= |text| && k == KeptFrom(text, 0, capacity - |s| - 2 - after)
    ensures Body(s, text, after, capacity) == s + Escape(text[..k])
  {
    if capacity - |s| - 2 - after < 0 {
      NothingKept(text, capacity - |s| - 2 - after);
      assert text[..0] == [] && s + [] == s;
    }
  }

  lemma PutNothing(s: string, capacity: nat)
    requires |s| < capacity
    ensures PutAll(s, [], capacity) == s
  {}

  lemma PutOneIs(s: string, c: char, capacity: nat)
    requires |s| < capacity
    ensures PutAll(s, [c], capacity) == Put(s, c, 1, capacity)
  {
    assert [c][..0] == [] && [c][..1] == [c];
  }

  lemma BackwardsNext(s: seq<char>)
    requires s != []
    ensures Backwards(s) == [s[|s| - 1]] + Backwards(s[..|s| - 1])
  {}

  lemma PutAllNext(s: string, text: string, i: nat, capacity: nat)
    requires |s| < capacity && i < |text|
    ensures Put(PutAll(s, text[..i], capacity), text[i], 1, capacity) == PutAll(s, text[..i + 1], capacity)
  {
    var n := capacity - 1 - |s|;
    if i < n {
      assert text[..i][..i] == text[..i] && text[..i + 1][..i + 1] == text[..i] + [text[i]];
    } else {
      assert text[..i][..n] == text[..i + 1][..n];
    }
  }

  function Backwards(s: seq<char>): string { if s == [] then [] else [s[|s| - 1]] + Backwards(s[..|s| - 1]) }

  lemma DigitsStep(left: nat, base: nat, width: nat, done: string)
    requires 2 <= base <= 16
    ensures Digits(left, base, width) + done ==
            if left < base && width <= 1 then [DIGITS[Lowest(left, base)]] + done
            else Digits(Upper(left, base), base, Less(width, 1)) + ([DIGITS[Lowest(left, base)]] + done)
  {
    hide Digits, Upper;
    DigitsUnfold(left, base, width);
    if !(left < base && width <= 1) {
      var rest, digit := Digits(Upper(left, base), base, Less(width, 1)), [DIGITS[Lowest(left, base)]];
      assert rest + digit + done == rest + (digit + done);
    }
  }

  lemma HalfBelow(left: nat, base: nat, n: nat)
    requires 2 <= base && left < Pow2(n) && n >= 1
    ensures Upper(left, base) < Pow2(n - 1)
    ensures n == 1 ==> Upper(left, base) == 0
  {
    hide Upper, Lowest;
    var upper, lowest := Upper(left, base), Lowest(left, base);
    assert upper * base == upper * 2 + upper * (base - 2);
    assert upper * (base - 2) >= 0 by { TimesAtLeastZero(upper, base - 2); }
    assert Pow2(n) == 2 * Pow2(n - 1);
  }

  lemma TimesAtLeastZero(a: nat, b: nat)
    ensures a * b >= 0
  {
  }
}
