/** The text form of a Postgres hstore (hstore.go): `Value` writes a map, `Scan` reads one
    with a small automaton. Strings are sequences of bytes, shown as characters. */
module Hstore {
  import opened Basics

  /** sql.NullString. */
  datatype NullString = Null | Valid(text: string)

  // ---------------------------------------------------------------- writing

  /** `strings.Replace(s, [c], with, -1)`. */
  function Replace(s: string, c: char, with: string): string {
    if s == [] then [] else (if s[0] == c then with else [s[0]]) + Replace(s[1..], c, with)
  }

  function QuoteString(s: string): string {
    "\"" + Replace(Replace(s, '\\', "\\\\"), '"', "\\\"") + "\""
  }

  /** `hQuote`. */
  function Quote(v: NullString): string {
    match v
    case Null => "NULL"
    case Valid(text) => QuoteString(text)
  }

  function PairText(key: string, value: NullString): string {
    QuoteString(key) + "=>" + Quote(value)
  }

  // ---------------------------------------------------------------- reading

  /** The variables of `Scan`: key and value so far, which of them is being read (pi), the
      flags, and the map. */
  datatype Scanner = Scanner(
    key: string, value: string, second: bool,
    inQuote: bool, didQuote: bool, sawSlash: bool,
    found: map<string, NullString>)

  const START := Scanner([], [], false, false, false, false, map[])

  function Append(s: Scanner, b: char): Scanner {
    if s.second then s.(value := s.value + [b]) else s.(key := s.key + [b])
  }

  function Lower(c: char): char {
    if 'A' <= c <= 'Z' then c + 32 as char else c
  }

  predicate IsNull(s: Scanner) {
    && !s.didQuote && |s.value| == 4
    && Lower(s.value[0]) == 'n' && Lower(s.value[1]) == 'u' && Lower(s.value[2]) == 'l' && Lower(s.value[3]) == 'l'
  }

  /** The pair that was read goes into the map. */
  function Committed(s: Scanner): map<string, NullString> {
    s.found[s.key := if IsNull(s) then Null else Valid(s.value)]
  }

  predicate Ignored(b: char) {
    b == ' ' || b == '\t' || b == '\n' || b == '\r' || b == '='
  }

  /** One byte. */
  function Step(s: Scanner, b: char): Scanner {
    if s.sawSlash then Append(s, b).(sawSlash := false)
    else if b == '\\' then s.(sawSlash := true)
    else if b == '"' then s.(inQuote := !s.inQuote, didQuote := true)
    else if s.inQuote then Append(s, b)
    else if Ignored(b) then s
    else if b == '>' then s.(second := true, didQuote := false)
    else if b == ',' then s.(found := Committed(s), key := [], value := [], second := false)
    else Append(s, b)
  }

  function Steps(s: Scanner, bytes: string): Scanner
    decreases |bytes|
  {
    if bytes == [] then s else Step(Steps(s, bytes[..|bytes| - 1]), bytes[|bytes| - 1])
  }

  lemma {:induction false} StepsConcat(s: Scanner, a: string, b: string)
    ensures Steps(s, a + b) == Steps(Steps(s, a), b)
    decreases |b|
  {
    if b == [] {
      assert a + b == a;
    } else {
      StepsConcat(s, a, b[..|b| - 1]);
      assert (a + b)[..|a + b| - 1] == a + b[..|b| - 1];
    }
  }

  /** What `Scan` gives: the last pair is added when the index of the last byte is not 0. */
  function Scanned(bytes: string): map<string, NullString> {
    var s := Steps(START, bytes);
    if |bytes| > 1 then Committed(s) else s.found
  }

  /** `Scan`, on a value that is not NULL. */
  method Scan(bytes: string) returns (found: map<string, NullString>)
    ensures found == Scanned(bytes)
  {
    var s, index := START, 0;
    for i := 0 to |bytes|
      invariant s == Steps(START, bytes[..i])
      invariant index == if i == 0 then 0 else i - 1
    {
      index := i;
      assert bytes[..i + 1][..i] == bytes[..i];
      s := Step(s, bytes[i]);
    }
    assert bytes[..|bytes|] == bytes;
    found := s.found;
    if index > 0 {
      found := Committed(s);
    }
  }

  // ---------------------------------------------------------------- quoted text reads back

  /** The two replacements, one after the other, character by character. */
  function EscapeChar(c: char): string {
    if c == '\\' then "\\\\" else if c == '"' then "\\\"" else [c]
  }

  function Escape(s: string): string {
    if s == [] then [] else EscapeChar(s[0]) + Escape(s[1..])
  }

  lemma {:induction false} ReplaceConcat(a: string, b: string, c: char, with: string)
    ensures Replace(a + b, c, with) == Replace(a, c, with) + Replace(b, c, with)
  {
    if a == [] {
      assert a + b == b;
    } else {
      ReplaceConcat(a[1..], b, c, with);
      assert (a + b)[1..] == a[1..] + b;
      var first := if a[0] == c then with else [a[0]];
      Concat3(first, Replace(a[1..], c, with), Replace(b, c, with));
    }
  }

  lemma {:induction false} ReplaceOne(c: char)
    ensures Replace(Replace([c], '\\', "\\\\"), '"', "\\\"") == EscapeChar(c)
  {
    var one := if c == '\\' then "\\\\" else [c];
    assert [c][1..] == [] && Replace([c][1..], '\\', "\\\\") == [];
    assert one + [] == one;
    assert Replace([c], '\\', "\\\\") == one;
    if c == '\\' {
      assert one[1..] == "\\" && one[1..][1..] == [];
      assert Replace(one[1..][1..], '"', "\\\"") == [];
      assert Replace(one[1..], '"', "\\\"") == "\\";
    } else {
      assert one[1..] == [] && Replace(one[1..], '"', "\\\"") == [];
      assert EscapeChar(c) + [] == EscapeChar(c);
    }
  }

  /** Escaping backslashes first and quotes then is escaping each character once. */
  lemma {:induction false} TwoReplacements(s: string)
    ensures Replace(Replace(s, '\\', "\\\\"), '"', "\\\"") == Escape(s)
  {
    if s != [] {
      TwoReplacements(s[1..]);
      ReplaceOne(s[0]);
      assert s == [s[0]] + s[1..];
      ReplaceConcat([s[0]], s[1..], '\\', "\\\\");
      ReplaceConcat(Replace([s[0]], '\\', "\\\\"), Replace(s[1..], '\\', "\\\\"), '"', "\\\"");
    }
  }

  function AppendAll(s: Scanner, text: string): Scanner {
    if s.second then s.(value := s.value + text) else s.(key := s.key + text)
  }

  lemma Steps1(s: Scanner, a: char)
    ensures Steps(s, [a]) == Step(s, a)
  {
    assert [a][..0] == [];
  }

  lemma Steps2(s: Scanner, a: char, b: char)
    ensures Steps(s, [a, b]) == Step(Step(s, a), b)
  {
    assert [a, b][..1] == [a];
    Steps1(s, a);
  }

  lemma EscapedChar(s: Scanner, c: char)
    requires s.inQuote && !s.sawSlash
    ensures Steps(s, EscapeChar(c)) == Append(s, c)
  {
    if c == '\\' {
      Steps2(s, '\\', '\\');
    } else if c == '"' {
      Steps2(s, '\\', '"');
    } else {
      Steps1(s, c);
    }
  }

  lemma AppendRest(s: Scanner, text: string)
    requires text != []
    ensures AppendAll(Append(s, text[0]), text[1..]) == AppendAll(s, text)
  {
    var was := if s.second then s.value else s.key;
    assert (was + [text[0]]) + text[1..] == was + text;
  }

  lemma {:induction false} EscapedText(s: Scanner, text: string)
    requires s.inQuote && !s.sawSlash
    ensures Steps(s, Escape(text)) == AppendAll(s, text)
    decreases |text|
  {
    if text == [] {
      assert s.value + [] == s.value && s.key + [] == s.key;
    } else {
      EscapedChar(s, text[0]);
      StepsConcat(s, EscapeChar(text[0]), Escape(text[1..]));
      EscapedText(Append(s, text[0]), text[1..]);
      AppendRest(s, text);
    }
  }

  /** Reading a quoted string outside of quotes adds exactly the string. */
  lemma QuotedText(s: Scanner, text: string)
    requires !s.inQuote && !s.sawSlash
    ensures Steps(s, QuoteString(text)) == AppendAll(s, text).(didQuote := true)
  {
    TwoReplacements(text);
    var open := s.(inQuote := true, didQuote := true);
    Steps1(s, '"');
    StepsConcat(s, "\"", Escape(text));
    EscapedText(open, text);
    StepsConcat(s, "\"" + Escape(text), "\"");
    Steps1(AppendAll(open, text), '"');
  }

  // ---------------------------------------------------------------- every printed form reads back

  predicate White(w: string) {
    forall i :: 0 <= i < |w| ==> w[i] == ' ' || w[i] == '\t' || w[i] == '\n' || w[i] == '\r'
  }

  /** NULL in any letter case. */
  predicate NullWord(w: string) {
    && |w| == 4 && (w[0] == 'n' || w[0] == 'N') && (w[1] == 'u' || w[1] == 'U')
    && (w[2] == 'l' || w[2] == 'L') && (w[3] == 'l' || w[3] == 'L')
  }

  /** Text that means itself without quotes. */
  predicate Bare(text: string) {
    forall i :: 0 <= i < |text| ==> text[i] !in {'\\', '"', ' ', '\t', '\n', '\r', '=', '>', ','}
  }

  /** How a pair is printed: the white space before the key, around the arrow and behind the
      value, the word for NULL, and whether key and value go without quotes. */
  datatype Layout = Layout(
    before: string, left: string, right: string, behind: string, nothing: string, bareKey: bool, bareValue: bool)

  /** As `Value` prints it. */
  const PLAIN := Layout("", "", "", "", "NULL", false, false)

  predicate Printable(key: string, value: NullString, l: Layout) {
    && White(l.before) && White(l.left) && White(l.right) && White(l.behind) && NullWord(l.nothing)
    && (l.bareKey ==> Bare(key))
    && (l.bareValue && value.Valid? ==> Bare(value.text) && !NullWord(value.text))
  }

  function WordPrinted(text: string, bare: bool): string {
    if bare then text else QuoteString(text)
  }

  function ValuePrinted(value: NullString, l: Layout): string {
    if value.Null? then l.nothing else WordPrinted(value.text, l.bareValue)
  }

  function PairPrinted(key: string, value: NullString, l: Layout): string {
    l.before + (WordPrinted(key, l.bareKey) + (l.left + ("=>" + (l.right + (ValuePrinted(value, l) + l.behind)))))
  }

  lemma {:induction false} WhiteReads(s: Scanner, w: string)
    requires White(w) && !s.inQuote && !s.sawSlash
    ensures Steps(s, w) == s
  {
    if w != [] {
      WhiteReads(s, w[..|w| - 1]);
    }
  }

  lemma {:induction false} BareReads(s: Scanner, text: string)
    requires Bare(text) && !s.inQuote && !s.sawSlash
    ensures Steps(s, text) == AppendAll(s, text)
  {
    var was := if s.second then s.value else s.key;
    if text == [] {
      assert was + [] == was;
    } else {
      var n := |text| - 1;
      BareReads(s, text[..n]);
      assert (was + text[..n]) + [text[n]] == was + text;
    }
  }

  lemma WordReads(s: Scanner, text: string, bare: bool)
    requires !s.inQuote && !s.sawSlash && (bare ==> Bare(text))
    ensures Steps(s, WordPrinted(text, bare)) == AppendAll(s, text).(didQuote := !bare || s.didQuote)
  {
    if bare {
      BareReads(s, text);
    } else {
      QuotedText(s, text);
    }
  }

  lemma ArrowReads(s: Scanner)
    requires !s.inQuote && !s.sawSlash
    ensures Steps(s, "=>") == s.(second := true, didQuote := false)
  {
    Steps2(s, '=', '>');
  }

  lemma NullIsBare(w: string)
    ensures NullWord(w) ==> Bare(w)
  {
  }

  lemma LowerIs(c: char)
    ensures Lower(c) == 'n' <==> c == 'n' || c == 'N'
    ensures Lower(c) == 'u' <==> c == 'u' || c == 'U'
    ensures Lower(c) == 'l' <==> c == 'l' || c == 'L'
  {
  }

  lemma IsNullWord(s: Scanner)
    ensures IsNull(s) <==> !s.didQuote && NullWord(s.value)
  {
    hide Lower;
    if |s.value| == 4 {
      LowerIs(s.value[0]);
      LowerIs(s.value[1]);
      LowerIs(s.value[2]);
      LowerIs(s.value[3]);
    }
  }

  /** What was read stands for the value. */
  lemma NullOrText(s: Scanner, value: NullString, l: Layout)
    requires s.second && s.value == [] && !s.inQuote && !s.sawSlash && !s.didQuote
    requires NullWord(l.nothing) && (l.bareValue && value.Valid? ==> Bare(value.text) && !NullWord(value.text))
    ensures var t := Steps(s, ValuePrinted(value, l));
            && !t.inQuote && !t.sawSlash && t.found == s.found && t.key == s.key
            && (if IsNull(t) then Null else Valid(t.value)) == value
  {
    hide IsNull, NullWord, Steps, QuoteString, Bare;
    var text := if value.Null? then l.nothing else value.text;
    NullIsBare(l.nothing);
    IsNullWord(Steps(s, ValuePrinted(value, l)));
    WordReads(s, text, value.Null? || l.bareValue);
    assert [] + text == text;
  }

  /** Between pairs: nothing pending. */
  predicate Ready(s: Scanner) {
    s.key == [] && s.value == [] && !s.second && !s.inQuote && !s.sawSlash
  }

  lemma KeyReads(s: Scanner, key: string, l: Layout, rest: string)
    requires Ready(s) && White(l.before) && White(l.left) && White(l.right) && (l.bareKey ==> Bare(key))
    ensures Steps(s, l.before + (WordPrinted(key, l.bareKey) + (l.left + ("=>" + (l.right + rest)))))
         == Steps(s.(key := key, second := true, didQuote := false), rest)
  {
    var word := WordPrinted(key, l.bareKey);
    var a := AppendAll(s, key).(didQuote := !l.bareKey || s.didQuote);
    assert [] + key == key;
    var b := a.(second := true, didQuote := false);
    StepsConcat(s, l.before, word + (l.left + ("=>" + (l.right + rest))));
    WhiteReads(s, l.before);
    StepsConcat(s, word, l.left + ("=>" + (l.right + rest)));
    WordReads(s, key, l.bareKey);
    StepsConcat(a, l.left, "=>" + (l.right + rest));
    WhiteReads(a, l.left);
    StepsConcat(a, "=>", l.right + rest);
    ArrowReads(a);
    StepsConcat(b, l.right, rest);
    WhiteReads(b, l.right);
  }

  /** Reading one pair: the key and value are pending, and NULL is told from "NULL". */
  lemma PairReads(s: Scanner, key: string, value: NullString, l: Layout)
    requires Ready(s) && Printable(key, value, l)
    ensures var t := Steps(s, PairPrinted(key, value, l));
            && !t.inQuote && !t.sawSlash && t.found == s.found
            && Committed(t) == s.found[key := value]
  {
    var b := s.(key := key, second := true, didQuote := false);
    KeyReads(s, key, l, ValuePrinted(value, l) + l.behind);
    StepsConcat(b, ValuePrinted(value, l), l.behind);
    NullOrText(b, value, l);
    WhiteReads(Steps(b, ValuePrinted(value, l)), l.behind);
  }

  /** The pairs of the given keys, each in its own layout, with commas between them. */
  function Printed(m: map<string, NullString>, keys: seq<string>, ls: seq<Layout>): string
    requires |ls| == |keys| && forall i :: 0 <= i < |keys| ==> keys[i] in m
  {
    if keys == [] then []
    else
      var n := |keys| - 1;
      var last := PairPrinted(keys[n], m[keys[n]], ls[n]);
      if n == 0 then last else Printed(m, keys[..n], ls[..n]) + "," + last
  }

  ghost predicate AllPrintable(m: map<string, NullString>, keys: seq<string>, ls: seq<Layout>) {
    && |ls| == |keys|
    && forall i :: 0 <= i < |keys| ==> keys[i] in m && Printable(keys[i], m[keys[i]], ls[i])
  }

  function Restricted(m: map<string, NullString>, keys: seq<string>): map<string, NullString>
    requires forall i :: 0 <= i < |keys| ==> keys[i] in m
  {
    map k | k in m && k in keys :: m[k]
  }

  lemma RestrictedMore(m: map<string, NullString>, keys: seq<string>, key: string)
    ensures (key in m && forall i :: 0 <= i < |keys| ==> keys[i] in m) ==>
      && (forall i :: 0 <= i < |keys + [key]| ==> (keys + [key])[i] in m)
      && Restricted(m, keys + [key]) == Restricted(m, keys)[key := m[key]]
  {
  }

  /** A comma and the next pair. */
  lemma CommaReads(before: string, key: string, value: NullString, l: Layout)
    requires var t := Steps(START, before); !t.inQuote && !t.sawSlash
    requires Printable(key, value, l)
    ensures var t, u := Steps(START, before), Steps(START, before + "," + PairPrinted(key, value, l));
            !u.inQuote && !u.sawSlash && Committed(u) == Committed(t)[key := value]
  {
    hide PairPrinted, Printable, Steps, IsNull;
    var t := Steps(START, before);
    Steps1(t, ',');
    StepsConcat(START, before, ",");
    StepsConcat(START, before + ",", PairPrinted(key, value, l));
    PairReads(Step(t, ','), key, value, l);
  }

  /** After the pairs of `keys`, all but the last are in the map and that one is pending. */
  lemma {:induction false} PrintedReads(m: map<string, NullString>, keys: seq<string>, ls: seq<Layout>)
    requires keys != [] && AllPrintable(m, keys, ls)
    ensures var t := Steps(START, Printed(m, keys, ls));
            !t.inQuote && !t.sawSlash && Committed(t) == Restricted(m, keys)
    decreases |keys|
  {
    var n := |keys| - 1;
    assert keys == keys[..n] + [keys[n]];
    RestrictedMore(m, keys[..n], keys[n]);
    if n == 0 {
      PairReads(START, keys[0], m[keys[0]], ls[0]);
      assert Restricted(m, keys[..n]) == map[];
    } else {
      PrintedReads(m, keys[..n], ls[..n]);
      CommaReads(Printed(m, keys[..n], ls[..n]), keys[n], m[keys[n]], ls[n]);
    }
  }

  /** For every map, every order of its keys and every layout of the pairs, the text scans to the
      map: white space outside of quotes does not matter, NULL may be in any letter case, quotes
      may be left out where nothing needs them. */
  lemma PrintedThenScan(m: map<string, NullString>, keys: seq<string>, ls: seq<Layout>)
    requires AllPrintable(m, keys, ls) && forall k :: k in m <==> k in keys
    ensures Scanned(Printed(m, keys, ls)) == m
  {
    if keys != [] {
      PrintedReads(m, keys, ls);
      assert Restricted(m, keys) == m;
      assert |Printed(m, keys, ls)| >= 2;
    } else {
      assert m == map[];
    }
  }

  /** White space alone is no map without pairs: more than one character of it scans to a pair of
      empty strings. */
  lemma BlankText(w: string)
    requires White(w)
    ensures Scanned(w) == map[] <==> |w| <= 1
    ensures |w| > 1 ==> Scanned(w) == map[[] := Valid([])]
  {
    WhiteReads(START, w);
    assert [] in Committed(START);
  }

  // ---------------------------------------------------------------- Value

  /** `strings.Join(parts, ",")` for the pairs of the given keys. */
  function Joined(m: map<string, NullString>, keys: seq<string>): string
    requires forall i :: 0 <= i < |keys| ==> keys[i] in m
  {
    if keys == [] then []
    else if |keys| == 1 then PairText(keys[0], m[keys[0]])
    else
      var n := |keys| - 1;
      Joined(m, keys[..n]) + "," + PairText(keys[n], m[keys[n]])
  }

  lemma NothingBetween(k: string, v: string)
    ensures "" + (k + ("" + ("=>" + ("" + (v + ""))))) == k + "=>" + v
  {
    assert v + "" == v;
    assert "" + v == v;
    assert "" + ("=>" + v) == "=>" + v;
    Concat3(k, "=>", v);
    assert "" + (k + ("=>" + v)) == k + ("=>" + v);
  }

  lemma PairPlain(key: string, value: NullString)
    ensures PairText(key, value) == PairPrinted(key, value, PLAIN) && Printable(key, value, PLAIN)
  {
    hide QuoteString;
    NothingBetween(QuoteString(key), Quote(value));
  }

  function Plains(n: nat): (ls: seq<Layout>)
    ensures |ls| == n
  {
    seq(n, _ => PLAIN)
  }

  lemma PlainsLast(n: nat)
    ensures Plains(n + 1)[..n] == Plains(n) && Plains(n + 1)[n] == PLAIN
  {
  }

  /** What `Value` writes is the printed form without white space. */
  lemma {:induction false} JoinedIsPrinted(m: map<string, NullString>, keys: seq<string>)
    requires forall i :: 0 <= i < |keys| ==> keys[i] in m
    ensures Joined(m, keys) == Printed(m, keys, Plains(|keys|))
    decreases |keys|
  {
    if keys != [] {
      hide PairText, PairPrinted, Plains, Printable;
      var n := |keys| - 1;
      JoinedIsPrinted(m, keys[..n]);
      PairPlain(keys[n], m[keys[n]]);
      PlainsLast(n);
    }
  }

  /** Every map survives, in whatever order its keys are written. */
  lemma ValueThenScan(m: map<string, NullString>, keys: seq<string>)
    requires forall k :: k in m <==> k in keys
    ensures Scanned(Joined(m, keys)) == m
  {
    JoinedIsPrinted(m, keys);
    forall i | 0 <= i < |keys| ensures Printable(keys[i], m[keys[i]], PLAIN) {
      PairPlain(keys[i], m[keys[i]]);
    }
    PrintedThenScan(m, keys, Plains(|keys|));
  }

  /** `Value`, for a map that is not nil: `keys` is the order the iteration took. */
  method Value(m: map<string, NullString>) returns (bytes: string)
    ensures Scanned(bytes) == m
  {
    bytes := [];
    var left, first := m.Keys, true;
    ghost var keys: seq<string> := [];
    while left != {}
      invariant left <= m.Keys && (first <==> keys == [])
      invariant forall k :: k in keys <==> k in m && k !in left
      invariant bytes == Joined(m, keys)
      decreases left
    {
      var k := Any(left);
      left := left - {k};
      bytes := (if first then "" else bytes + ",") + PairText(k, m[k]);
      first := false;
      assert (keys + [k])[..|keys|] == keys;
      keys := keys + [k];
    }
    ValueThenScan(m, keys);
  }
}
