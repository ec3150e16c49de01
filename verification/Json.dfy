/**
 JSON values and their text, as marshalling writes it: without blanks, with quotes, backslashes
 and control characters escaped in strings. No object's text is a proper beginning of another's.
 */
module Json {

  predicate NumberChar(c: char) {
    '0' <= c <= '9' || c == '+' || c == '-' || c == '.' || c == 'e' || c == 'E'
  }

  type NumberText = s: string | forall c <- s :: NumberChar(c) witness "0"

  datatype Value =
    | Null
    | Bool(value: bool)
    | Number(text: NumberText)
    | Text(s: string)
    | Array(items: Items)
    | Object(fields: Fields)

  datatype Items = NoItems | Item(first: Value, rest: Items)

  datatype Fields = NoFields | Field(key: string, value: Value, rest: Fields)

  // --- Marshalling ---

  const HEX := "0123456789abcdef"

  /** A character inside of a string. */
  function Escaped(c: char): string {
    if c == '"' then "\\\""
    else if c == '\\' then "\\\\"
    else if c == '\n' then "\\n"
    else if c == '\r' then "\\r"
    else if c == '\t' then "\\t"
    else if c < ' ' || c == '<' || c == '>' || c == '&' then "\\u00" + [HEX[c as int / 16], HEX[c as int % 16]]
    else [c]
  }

  function AllEscaped(s: string): string {
    if s == "" then "" else Escaped(s[0]) + AllEscaped(s[1..])
  }

  function Quoted(s: string): string {
    "\"" + AllEscaped(s) + "\""
  }

  function Marshal(v: Value): string {
    match v
    case Null => "null"
    case Bool(b) => if b then "true" else "false"
    case Number(text) => text
    case Text(s) => Quoted(s)
    case Array(items) => "[" + MarshalItems(items) + "]"
    case Object(fields) => "{" + MarshalFields(fields) + "}"
  }

  function MarshalItems(items: Items): string {
    match items
    case NoItems => ""
    case Item(first, NoItems) => Marshal(first)
    case Item(first, rest) => Marshal(first) + ("," + MarshalItems(rest))
  }

  function Member(key: string, text: string): string {
    Quoted(key) + (":" + text)
  }

  function MarshalFields(fields: Fields): string {
    match fields
    case NoFields => ""
    case Field(key, value, NoFields) => Member(key, Marshal(value))
    case Field(key, value, rest) => Member(key, Marshal(value)) + ("," + MarshalFields(rest))
  }

  // --- Reading a text from the front ---

  /** How deep in brackets, and whether inside of a string or right after a backslash there. */
  datatype Mode = Mode(depth: int, inString: bool, escaped: bool)

  function Next(m: Mode, c: char): Mode {
    if m.inString then
      if m.escaped then m.(escaped := false)
      else if c == '\\' then m.(escaped := true)
      else if c == '"' then m.(inString := false)
      else m
    else if c == '"' then m.(inString := true)
    else if c == '{' || c == '[' then m.(depth := m.depth + 1)
    else if c == '}' || c == ']' then m.(depth := m.depth - 1)
    else m
  }

  function Run(m: Mode, s: string): Mode
    decreases |s|
  {
    if s == "" then m else Run(Next(m, s[0]), s[1..])
  }

  /** Reading the text ends as it began, and never gets out of the brackets it began in. */
  ghost predicate Balanced(m: Mode, s: string) {
    Run(m, s) == m && Above(m, s, m.depth)
  }

  ghost predicate Above(m: Mode, s: string, floor: int)
    decreases |s|
  {
    m.depth >= floor && (s != "" ==> Above(Next(m, s[0]), s[1..], floor))
  }

  lemma {:induction false} RunAppend(m: Mode, a: string, b: string, floor: int)
    ensures Run(m, a + b) == Run(Run(m, a), b)
    ensures Above(m, a, floor) && Above(Run(m, a), b, floor) ==> Above(m, a + b, floor)
    decreases |a|
  {
    if a == "" {
      assert a + b == b;
    } else {
      assert (a + b)[1..] == a[1..] + b;
      RunAppend(Next(m, a[0]), a[1..], b, floor);
    }
  }

  lemma BalancedAppend(m: Mode, a: string, b: string)
    requires Balanced(m, a) && Balanced(m, b)
    ensures Balanced(m, a + b)
  {
    RunAppend(m, a, b, m.depth);
  }

  predicate Plain(c: char) {
    c != '"' && c != '{' && c != '}' && c != '[' && c != ']'
  }

  /** Characters that mean nothing outside of strings. */
  lemma {:induction false} PlainIsBalanced(m: Mode, s: string)
    requires !m.inString && forall c <- s :: Plain(c)
    ensures Balanced(m, s)
  {
    if s != "" {
      assert s[0] in s;
      PlainIsBalanced(m, s[1..]);
    }
  }

  predicate Ordinary(c: char) {
    c != '"' && c != '\\'
  }

  /** Characters that mean nothing inside of strings. */
  lemma {:induction false} InsideIsBalanced(m: Mode, s: string)
    requires m.inString && !m.escaped && forall c <- s :: Ordinary(c)
    ensures Balanced(m, s)
  {
    if s != "" {
      assert s[0] in s;
      InsideIsBalanced(m, s[1..]);
    }
  }

  lemma PairIsBalanced(m: Mode, c: char)
    requires m.inString && !m.escaped
    ensures Balanced(m, ['\\', c])
  {
    assert ['\\', c][1..] == [c] && [c][1..] == "";
    assert Run(Next(m, '\\'), [c]) == m;
    assert Above(Next(m, '\\'), [c], m.depth);
  }

  lemma HexIsInside(digit: int)
    requires 0 <= digit < 16
    ensures Ordinary(HEX[digit])
  {
  }

  lemma EscapedIsBalanced(m: Mode, c: char)
    requires m.inString && !m.escaped
    ensures Balanced(m, Escaped(c))
  {
    hide Balanced;
    var e := Escaped(c);
    if |e| == 1 {
      InsideIsBalanced(m, e);
    } else {
      PairIsBalanced(m, e[1]);
      HexIsInside(c as int / 16);
      HexIsInside(c as int % 16);
      InsideIsBalanced(m, e[2..]);
      BalancedAppend(m, ['\\', e[1]], e[2..]);
      assert e == ['\\', e[1]] + e[2..];
    }
  }

  lemma {:induction false} AllEscapedIsBalanced(m: Mode, s: string)
    requires m.inString && !m.escaped
    ensures Balanced(m, AllEscaped(s))
  {
    hide Balanced, Escaped;
    if s == "" {
      InsideIsBalanced(m, "");
    } else {
      EscapedIsBalanced(m, s[0]);
      AllEscapedIsBalanced(m, s[1..]);
      BalancedAppend(m, Escaped(s[0]), AllEscaped(s[1..]));
    }
  }

  /** Between two characters of which the second undoes the first: in quotes, or in brackets. */
  lemma WrappedIsBalanced(m: Mode, open: char, s: string, close: char)
    requires var inner := Next(m, open);
             inner.depth >= m.depth && Next(inner, close) == m && Balanced(inner, s)
    ensures Balanced(m, [open] + s + [close])
  {
    var inner := Next(m, open);
    RunAppend(inner, s, [close], m.depth);
    AboveLower(inner, s, inner.depth, m.depth);
    assert ([open] + s + [close])[1..] == s + [close];
    assert [close][1..] == "" && Above(m, "", m.depth);
    assert Above(inner, [close], m.depth);
  }

  lemma {:induction false} AboveLower(m: Mode, s: string, floor: int, lower: int)
    requires Above(m, s, floor) && lower <= floor
    ensures Above(m, s, lower)
    decreases |s|
  {
    if s != "" {
      AboveLower(Next(m, s[0]), s[1..], floor, lower);
    }
  }

  lemma QuotedIsBalanced(m: Mode, s: string)
    requires !m.inString && !m.escaped
    ensures Balanced(m, Quoted(s))
  {
    hide Balanced, AllEscaped;
    AllEscapedIsBalanced(Next(m, '"'), s);
    WrappedIsBalanced(m, '"', AllEscaped(s), '"');
  }

  lemma WordsAreBalanced(m: Mode)
    requires !m.inString
    ensures Balanced(m, "null") && Balanced(m, "true") && Balanced(m, "false")
  {
    PlainIsBalanced(m, "null");
    PlainIsBalanced(m, "true");
    PlainIsBalanced(m, "false");
  }

  lemma {:induction false} MarshalIsBalanced(m: Mode, v: Value)
    requires !m.inString && !m.escaped
    ensures Balanced(m, Marshal(v))
    decreases v
  {
    hide Balanced, Quoted;
    match v
    case Null => WordsAreBalanced(m);
    case Bool(_) => WordsAreBalanced(m);
    case Number(text) => PlainIsBalanced(m, text);
    case Text(s) => QuotedIsBalanced(m, s);
    case Array(items) =>
      ItemsAreBalanced(Next(m, '['), items);
      WrappedIsBalanced(m, '[', MarshalItems(items), ']');
    case Object(fields) =>
      FieldsAreBalanced(Next(m, '{'), fields);
      WrappedIsBalanced(m, '{', MarshalFields(fields), '}');
  }

  lemma {:induction false} ItemsAreBalanced(m: Mode, items: Items)
    requires !m.inString && !m.escaped
    ensures Balanced(m, MarshalItems(items))
    decreases items
  {
    hide Balanced, Marshal;
    match items
    case NoItems => PlainIsBalanced(m, "");
    case Item(first, rest) =>
      MarshalIsBalanced(m, first);
      ItemsAreBalanced(m, rest);
      PlainIsBalanced(m, ",");
      BalancedAppend(m, ",", MarshalItems(rest));
      BalancedAppend(m, Marshal(first), "," + MarshalItems(rest));
  }

  lemma {:induction false} FieldsAreBalanced(m: Mode, fields: Fields)
    requires !m.inString && !m.escaped
    ensures Balanced(m, MarshalFields(fields))
    decreases fields
  {
    hide Balanced, Marshal, Quoted;
    match fields
    case NoFields => PlainIsBalanced(m, "");
    case Field(key, value, rest) =>
      MarshalIsBalanced(m, value);
      QuotedIsBalanced(m, key);
      PlainIsBalanced(m, ":");
      BalancedAppend(m, ":", Marshal(value));
      BalancedAppend(m, Quoted(key), ":" + Marshal(value));
      FieldsAreBalanced(m, rest);
      PlainIsBalanced(m, ",");
      BalancedAppend(m, ",", MarshalFields(rest));
      BalancedAppend(m, Member(key, Marshal(value)), "," + MarshalFields(rest));
  }

  // --- Objects ---

  lemma {:induction false} AboveAt(m: Mode, a: string, b: string, floor: int)
    requires a <= b && Above(m, b, floor)
    ensures Run(m, a).depth >= floor
    decreases |a|
  {
    if a != "" {
      assert a[0] == b[0] && a[1..] <= b[1..];
      AboveAt(Next(m, a[0]), a[1..], b[1..], floor);
    }
  }

  /** A marshalled object's bracket closes at its last character and not before. */
  lemma ObjectsDoNotBegin(a: Value, b: Value)
    requires a.Object? && b.Object?
    ensures Marshal(a) != "" && !(Marshal(a) < Marshal(b))
  {
    hide Marshal, MarshalFields;
    var m := Mode(0, false, false);
    ObjectText(a);
    ObjectText(b);
    var s, t := Marshal(a), Marshal(b);
    MarshalIsBalanced(m, a);
    FieldsAreBalanced(Next(m, '{'), b.fields);
    assert Run(Next(m, '{'), s[1..]) == m;
    if s < t {
      var inner := MarshalFields(b.fields);
      assert t[1..] == inner + "}";
      assert s[1..] <= inner;
      AboveAt(Next(m, '{'), s[1..], inner, 1);
      assert false;
    }
  }

  lemma ObjectText(v: Value)
    requires v.Object?
    ensures Marshal(v) == "{" + MarshalFields(v.fields) + "}"
  {
  }
}
