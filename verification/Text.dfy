/** The string operations the operator relies on: splitting, joining, and decimal numbers. */
module Text {

  /** Cuts a string at every separator; there is always at least one part. */
  function Split(s: string, separator: char): (parts: seq<string>)
    ensures |parts| >= 1
  {
    if s == "" then [""]
    else
      var rest := Split(s[1..], separator);
      if s[0] == separator then [""] + rest else [[s[0]] + rest[0]] + rest[1..]
  }

  function Join(parts: seq<string>, separator: char): string {
    if parts == [] then ""
    else if |parts| == 1 then parts[0]
    else parts[0] + [separator] + Join(parts[1..], separator)
  }

  /** Joining the parts gives the string back. */
  lemma {:induction false} JoinOfSplit(s: string, separator: char)
    ensures Join(Split(s, separator), separator) == s
  {
    if s != "" {
      JoinOfSplit(s[1..], separator);
      var rest := Split(s[1..], separator);
      if s[0] == separator {
        assert ([""] + rest)[1..] == rest;
      } else {
        var parts := [[s[0]] + rest[0]] + rest[1..];
        assert parts[1..] == rest[1..];
        assert s == [s[0]] + s[1..];
      }
    }
  }

  /** No part contains the separator. */
  lemma {:induction false} PartsAreClean(s: string, separator: char)
    ensures forall part <- Split(s, separator) :: separator !in part
  {
    if s != "" {
      PartsAreClean(s[1..], separator);
    }
  }

  /** Splitting is the only way to cut a string into parts without the separator. */
  lemma {:induction false} SplitOfJoin(parts: seq<string>, separator: char)
    requires |parts| >= 1 && forall part <- parts :: separator !in part
    ensures Split(Join(parts, separator), separator) == parts
    decreases |parts|, |parts[0]|
  {
    var s := Join(parts, separator);
    if |parts| == 1 && parts[0] == "" {
    } else if parts[0] == "" {
      SplitOfJoin(parts[1..], separator);
      assert s[1..] == Join(parts[1..], separator);
    } else {
      var shorter := [parts[0][1..]] + parts[1..];
      assert forall part <- shorter :: separator !in part by {
        forall part | part in shorter ensures separator !in part {
          if part == parts[0][1..] { assert parts[0] in parts; } else { assert part in parts; }
        }
      }
      SplitOfJoin(shorter, separator);
      assert s[1..] == Join(shorter, separator) by { assert shorter[1..] == parts[1..]; }
      assert parts[0] in parts && s[0] == parts[0][0];
      assert parts[0] == [s[0]] + parts[0][1..];
      assert parts == [[s[0]] + parts[0][1..]] + parts[1..];
    }
  }

  /** The parts of a split are clean and join to the string, and no other list of parts does that. */
  lemma SplitIsUnique(s: string, separator: char, parts: seq<string>)
    ensures parts == Split(s, separator) <==>
            |parts| >= 1 && (forall part <- parts :: separator !in part) && Join(parts, separator) == s
  {
    JoinOfSplit(s, separator);
    PartsAreClean(s, separator);
    if |parts| >= 1 && (forall part <- parts :: separator !in part) && Join(parts, separator) == s {
      SplitOfJoin(parts, separator);
    }
  }

  predicate IsDigit(c: char) {
    '0' <= c <= '9'
  }

  function Digit(c: char): nat
    requires IsDigit(c)
  {
    c as int - '0' as int
  }

  /** Decimal digits of a number. */
  function Itoa(n: nat): (s: string)
    ensures s != "" && forall c <- s :: IsDigit(c)
  {
    var last := [('0' as int + n % 10) as char];
    if n < 10 then last else Itoa(n / 10) + last
  }

  ghost function Value(s: string): nat
    requires forall c <- s :: IsDigit(c)
  {
    if s == "" then 0 else Value(s[..|s| - 1]) * 10 + Digit(s[|s| - 1])
  }

  lemma {:induction false} ValueOfItoa(n: nat)
    ensures Value(Itoa(n)) == n
  {
    if n >= 10 {
      ValueOfItoa(n / 10);
      assert Itoa(n)[..|Itoa(n)| - 1] == Itoa(n / 10);
    } else {
      assert Itoa(n)[..0] == "";
    }
  }

  lemma ItoaIsInjective(m: nat, n: nat)
    requires Itoa(m) == Itoa(n)
    ensures m == n
  {
    ValueOfItoa(m);
    ValueOfItoa(n);
  }

  // --- Parsing ---

  const MAX_INT := 0x7FFF_FFFF_FFFF_FFFF
  const MAX_UINT := 0xFFFF_FFFF_FFFF_FFFF

  /** The result of parsing a number; an error still comes with a value. */
  datatype Number = Number(value: int) | Malformed(value: int) | OutOfRange(value: int)

  /** Reads an unsigned number digit by digit and stops at the first problem. */
  function ScanUnsigned(s: string, sofar: nat): Number {
    if s == "" then Number(sofar)
    else if !IsDigit(s[0]) then Malformed(0)
    else
      var next := sofar * 10 + Digit(s[0]);
      if next > MAX_UINT then OutOfRange(MAX_UINT) else ScanUnsigned(s[1..], next)
  }

  /** Signed 64-bit decimal parsing: out of range values are clamped. */
  function Atoi(s: string): Number {
    var negative := s != "" && s[0] == '-';
    var digits := if s != "" && (s[0] == '-' || s[0] == '+') then s[1..] else s;
    if digits == "" then Malformed(0)
    else
      match ScanUnsigned(digits, 0)
      case Malformed(v) => Malformed(v)
      case OutOfRange(_) => OutOfRange(if negative then -MAX_INT - 1 else MAX_INT)
      case Number(v) =>
        if negative then (if v > MAX_INT + 1 then OutOfRange(-MAX_INT - 1) else Number(-v))
        else (if v > MAX_INT then OutOfRange(MAX_INT) else Number(v))
  }

  // --- What parsing means ---

  predicate AllDigits(s: string) {
    forall c <- s :: IsDigit(c)
  }

  /** How many characters of a text are digits before the first one that is not. */
  function DigitsBefore(s: string): (n: nat)
    ensures n <= |s| && AllDigits(s[..n])
    ensures n < |s| ==> !IsDigit(s[n])
  {
    if s == "" || !IsDigit(s[0]) then 0 else 1 + DigitsBefore(s[1..])
  }

  lemma ValueOfMore(read: string, c: char)
    requires AllDigits(read) && IsDigit(c)
    ensures AllDigits(read + [c]) && Value(read + [c]) == Value(read) * 10 + Digit(c)
  {
    assert (read + [c])[..|read|] == read;
  }

  lemma {:induction false} ValueGrows(read: string, more: string)
    requires AllDigits(read) && AllDigits(more)
    ensures AllDigits(read + more) && Value(read) <= Value(read + more)
    decreases |more|
  {
    if more == "" {
      assert read + more == read;
    } else {
      ValueOfMore(read, more[0]);
      ValueGrows(read + [more[0]], more[1..]);
      assert read + [more[0]] + more[1..] == read + more;
    }
  }

  /** Reading on after some digits: too large a value is noticed before anything that is no digit. */
  lemma {:induction false} ScanReads(read: string, s: string)
    requires AllDigits(read) && Value(read) <= MAX_UINT
    ensures var n := DigitsBefore(s);
            && AllDigits(read + s[..n])
            && ScanUnsigned(s, Value(read)) ==
               if Value(read + s[..n]) > MAX_UINT then OutOfRange(MAX_UINT)
               else if n < |s| then Malformed(0)
               else Number(Value(read + s[..n]))
    decreases |s|
  {
    hide Value, Digit;
    var n := DigitsBefore(s);
    if s == "" || !IsDigit(s[0]) {
      assert read + s[..0] == read;
    } else {
      var on, more := read + [s[0]], s[1..][..n - 1];
      ValueOfMore(read, s[0]);
      assert read + s[..n] == on + more by {
        assert s[..n] == [s[0]] + more;
      }
      ValueGrows(on, more);
      if Value(on) <= MAX_UINT {
        ScanReads(on, s[1..]);
      }
    }
  }

  lemma ScanMeans(s: string)
    ensures var n := DigitsBefore(s);
            ScanUnsigned(s, 0) ==
            if Value(s[..n]) > MAX_UINT then OutOfRange(MAX_UINT) else if n < |s| then Malformed(0) else Number(Value(s))
  {
    ScanReads("", s);
    assert "" + s[..DigitsBefore(s)] == s[..DigitsBefore(s)];
    assert s[..|s|] == s;
  }

  lemma DigitsAreBefore(s: string)
    requires AllDigits(s)
    ensures DigitsBefore(s) == |s| && s[..|s|] == s
  {
    assert forall i :: 0 <= i < |s| ==> s[i] in s;
  }

  /** A number without a sign has its value, up to the largest integer. */
  lemma AtoiOfDigits(s: string)
    requires s != "" && AllDigits(s)
    ensures Atoi(s) == if Value(s) <= 9_223_372_036_854_775_807 then Number(Value(s)) else OutOfRange(MAX_INT)
  {
    assert s[0] in s;
    ScanMeans(s);
    DigitsAreBefore(s);
  }

  lemma AtoiOfSigned(s: string)
    requires s != "" && AllDigits(s)
    ensures Atoi("+" + s) == Atoi(s)
    ensures Atoi("-" + s) == if Value(s) <= MAX_INT + 1 then Number(0 - Value(s)) else OutOfRange(-MAX_INT - 1)
  {
    assert s[0] in s;
    ScanMeans(s);
    DigitsAreBefore(s);
    assert ("+" + s)[1..] == s && ("-" + s)[1..] == s;
  }

  predicate Signed(s: string) {
    s != "" && (s[0] == '-' || s[0] == '+')
  }

  /** Anything else is malformed, unless what comes before the first other character is out of range. */
  lemma AtoiOfOthers(s: string)
    requires var body := if Signed(s) then s[1..] else s; body == "" || !AllDigits(body)
    ensures var body := if Signed(s) then s[1..] else s;
            Atoi(s) ==
            if Value(body[..DigitsBefore(body)]) <= MAX_UINT then Malformed(0)
            else OutOfRange(if s[0] == '-' then -MAX_INT - 1 else MAX_INT)
  {
    var body := if Signed(s) then s[1..] else s;
    if body != "" {
      ScanMeans(body);
      assert body[..|body|] == body;
    }
  }
}
