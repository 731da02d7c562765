/** Front matter of a post file: a leading block `---\n ... \n---\n` of `key: value`
    lines, followed by the Markdown body. */
module PostLoader {
  import opened Text

  /** A metadata value: plain text, or the list a `tags` line holds. */
  datatype MetaValue = Str(text: string) | List(items: seq<string>)

  datatype Parsed = Parsed(metadata: map<string, MetaValue>, content: string)

  /** `JSON.parse` as the parser sees it: the array of strings a text denotes, or None
      where the built-in throws. */
  type JsonParser = string -> Option<seq<string>>

  const Opening: string := "---\n"
  const Closing: string := "\n---\n"

  predicate ClosingAt(s: string, j: nat) {
    j + |Closing| <= |s| && s[j..j + |Closing|] == Closing
  }

  /** The first position at or after `from` where the closing delimiter starts. */
  function FindClosing(s: string, from: nat): (r: Option<nat>)
    ensures r.Some? ==> from <= r.value && ClosingAt(s, r.value)
    ensures r.Some? ==> forall j: nat :: from <= j < r.value ==> !ClosingAt(s, j)
    ensures r.None? ==> forall j: nat :: from <= j ==> !ClosingAt(s, j)
    decreases |s| - from
  {
    if from + |Closing| > |s| then None
    else if ClosingAt(s, from) then Some(from)
    else FindClosing(s, from + 1)
  }

  /** The match of `^---\n([\s\S]*?)\n---\n([\s\S]*)$`: the text must start with the
      opening delimiter; the front matter runs up to the FIRST closing delimiter after
      it (the group is lazy), and the body is all the rest. */
  function SplitFrontMatter(content: string): (r: Option<(string, string)>)
    ensures r.Some? ==> content == Opening + r.value.0 + Closing + r.value.1
    ensures r.Some? ==> forall j: nat :: |Opening| <= j < |Opening| + |r.value.0| ==> !ClosingAt(content, j)
    ensures r.None? <==> !(Opening <= content && exists j: nat :: |Opening| <= j && ClosingAt(content, j))
  {
    if !(Opening <= content) then None
    else
      match FindClosing(content, |Opening|)
      case None => None
      case Some(k) =>
        var front := content[|Opening|..k];
        var body := content[k + |Closing|..];
        assert content == content[..|Opening|] + front + content[k..k + |Closing|] + body;
        Some((front, body))
  }

  predicate IsQuote(c: char) { c == '"' || c == '\'' }

  /** Removes the first and last character when the value starts and ends with the same
      quote character (`"…"` or `'…'`); otherwise the value is kept. A lone quote
      becomes empty. */
  function Unquote(v: string): (r: string)
    ensures |v| >= 2 && IsQuote(v[0]) && v[|v| - 1] == v[0] ==> r == v[1..|v| - 1]
    ensures |v| == 1 && IsQuote(v[0]) ==> r == ""
    ensures !(|v| >= 1 && IsQuote(v[0]) && v[|v| - 1] == v[0]) ==> r == v
  {
    if |v| >= 1 && ((v[0] == '"' && v[|v| - 1] == '"') || (v[0] == '\'' && v[|v| - 1] == '\'')) then
      (if |v| >= 2 then v[1..|v| - 1] else "")
    else v
  }

  /** `tag.replace(/^['"]|['"]$/g, '')`: drops one quote character at the start and one
      at the end, independently of each other. */
  function StripTagQuotes(t: string): (r: string)
    ensures |t| >= 2 ==> r == t[(if IsQuote(t[0]) then 1 else 0)..|t| - (if IsQuote(t[|t| - 1]) then 1 else 0)]
    ensures |t| == 1 ==> r == (if IsQuote(t[0]) then "" else t)
    ensures |t| == 0 ==> r == ""
  {
    var a := if |t| > 0 && IsQuote(t[0]) then t[1..] else t;
    if |a| > 0 && IsQuote(a[|a| - 1]) then a[..|a| - 1] else a
  }

  /** The fallback for a bracketed `tags` value that is not valid JSON: the text between
      the brackets split at every comma, each piece trimmed and stripped of quotes.
      There is one element more than there are commas. */
  function TagsFallback(v: string): (r: seq<string>)
    requires |v| >= 2
    ensures |r| == |Split(v[1..|v| - 1], ',')| == CountChar(v[1..|v| - 1], ',') + 1
    ensures forall i :: 0 <= i < |r| ==> r[i] == StripTagQuotes(Trim(Split(v[1..|v| - 1], ',')[i]))
  {
    var pieces := Split(v[1..|v| - 1], ',');
    SplitCount(v[1..|v| - 1], ',');
    seq(|pieces|, i requires 0 <= i < |pieces| => StripTagQuotes(Trim(pieces[i])))
  }

  predicate Bracketed(v: string) {
    |v| >= 2 && v[0] == '[' && v[|v| - 1] == ']'
  }

  /** The value stored for `key` given the trimmed text after the colon. Quotes are
      removed first; only the key `tags` turns a bracketed value into a list, through
      `JSON.parse` or, where that fails, the comma split. */
  function ValueOf(key: string, raw: string, json: JsonParser): (r: MetaValue)
    ensures key != "tags" ==> r == Str(Unquote(raw))
    ensures !Bracketed(Unquote(raw)) ==> r == Str(Unquote(raw))
    ensures key == "tags" && Bracketed(Unquote(raw)) ==>
      r == List(if json(Unquote(raw)).Some? then json(Unquote(raw)).value else TagsFallback(Unquote(raw)))
  {
    var value := Unquote(raw);
    if key == "tags" && |value| >= 1 && value[0] == '[' && value[|value| - 1] == ']' then
      match json(value)
      case Some(items) => List(items)
      case None => List(TagsFallback(value))
    else Str(value)
  }

  /** One front-matter line: an entry exactly when the line holds a colon that is not its
      first character; the key is the trimmed text before the first colon. */
  function ParseLine(line: string, json: JsonParser): (r: Option<(string, MetaValue)>)
    ensures r.Some? <==> ':' in line && line[0] != ':'
    ensures r.Some? ==> var i := IndexOf(line, ':');
      0 < i && r.value == (Trim(line[..i]), ValueOf(Trim(line[..i]), Trim(line[i + 1..]), json))
  {
    var colonIndex := IndexOf(line, ':');
    if colonIndex > 0 then
      var key := Trim(line[..colonIndex]);
      Some((key, ValueOf(key, Trim(line[colonIndex + 1..]), json)))
    else None
  }

  /** The entry, if any, that each line produces. */
  function Entries(lines: seq<string>, json: JsonParser): (r: seq<Option<(string, MetaValue)>>)
    ensures |r| == |lines|
    ensures forall i :: 0 <= i < |lines| ==> r[i] == ParseLine(lines[i], json)
  {
    seq(|lines|, i requires 0 <= i < |lines| => ParseLine(lines[i], json))
  }

  /** `metadata[key] = value` on the object literal `metadata`: assigning to `__proto__`
      goes to the inherited setter, which ignores a text value and so creates no key; a
      value under that key is always text, since only `tags` can hold a list. */
  function Store(m: map<string, MetaValue>, key: string, value: MetaValue): (r: map<string, MetaValue>)
    ensures key == "__proto__" ==> r == m
    ensures key != "__proto__" ==> key in r && r[key] == value
    ensures forall k :: k != key ==> (k in r <==> k in m) && (k in m ==> r[k] == m[k])
  {
    if key == "__proto__" then m else m[key := value]
  }

  /** The dictionary that assigning the entries one after the other builds; it never
      holds the key `__proto__`. */
  function Assign(entries: seq<Option<(string, MetaValue)>>): (r: map<string, MetaValue>)
    ensures "__proto__" !in r
    decreases |entries|
  {
    if entries == [] then map[]
    else
      var m := Assign(entries[..|entries| - 1]);
      match entries[|entries| - 1]
      case None => m
      case Some(entry) => Store(m, entry.0, entry.1)
  }

  lemma AssignNext(entries: seq<Option<(string, MetaValue)>>, n: nat)
    requires n < |entries|
    ensures Assign(entries[..n + 1])
         == if entries[n].Some? then Store(Assign(entries[..n]), entries[n].value.0, entries[n].value.1) else Assign(entries[..n])
  {
    assert entries[..n + 1][..n] == entries[..n];
  }

  lemma AssignStored(entries: seq<Option<(string, MetaValue)>>, n: nat, key: string, value: MetaValue)
    requires n < |entries| && entries[n] == Some((key, value))
    ensures Assign(entries[..n + 1]) == Store(Assign(entries[..n]), key, value)
  {
    AssignNext(entries, n);
  }

  lemma AssignSkipped(entries: seq<Option<(string, MetaValue)>>, n: nat)
    requires n < |entries| && entries[n] == None
    ensures Assign(entries[..n + 1]) == Assign(entries[..n])
  {
    AssignNext(entries, n);
  }

  /** The entry `e` is for `key`. */
  predicate EntryFor(e: Option<(string, MetaValue)>, key: string) {
    e.Some? && e.value.0 == key
  }

  /** What `parseFrontMatter(content)` returns. */
  function FrontMatterOf(content: string, json: JsonParser): Parsed
  {
    match SplitFrontMatter(content)
    case None => Parsed(map[], content)
    case Some((front, body)) => Parsed(Assign(Entries(Split(front, '\n'), json)), body)
  }

  /** `parseFrontMatter(content)`: match the delimiters, then fill the metadata
      dictionary line by line. */
  method ParseFrontMatter(content: string, json: JsonParser) returns (r: Parsed)
    ensures r == FrontMatterOf(content, json)
  {
    var m := SplitFrontMatter(content);
    if m.None? {
      return Parsed(map[], content);
    }
    var frontMatter, postContent := m.value.0, m.value.1;
    var lines := Split(frontMatter, '\n');
    ghost var entries := Entries(lines, json);
    var metadata: map<string, MetaValue> := map[];
    var n := 0;
    while n < |lines|
      invariant 0 <= n <= |lines|
      invariant metadata == Assign(entries[..n])
    {
      var line := lines[n];
      assert entries[n] == ParseLine(line, json);
      var colonIndex := IndexOf(line, ':');
      if colonIndex > 0 {
        var key := Trim(line[..colonIndex]);
        var value := ValueOf(key, Trim(line[colonIndex + 1..]), json);
        AssignStored(entries, n, key, value);
        metadata := Store(metadata, key, value);
      } else {
        AssignSkipped(entries, n);
      }
      n := n + 1;
    }
    assert entries[..n] == entries;
    r := Parsed(metadata, postContent);
  }

  /** Without a leading `---\n` and a later `\n---\n`, the result is empty metadata and
      the whole input as content. */
  lemma NoFrontMatter(content: string, json: JsonParser)
    requires !(Opening <= content) || forall j: nat :: |Opening| <= j ==> !ClosingAt(content, j)
    ensures FrontMatterOf(content, json) == Parsed(map[], content)
  {
  }

  /** A closing `---` that ends the file without a newline does not close the block. */
  lemma {:induction false} ClosingNeedsNewline(json: JsonParser)
    ensures FrontMatterOf("---\ntitle: x\n---", json) == Parsed(map[], "---\ntitle: x\n---")
  {
    var s := "---\ntitle: x\n---";
    forall j: nat | 4 <= j <= 11
      ensures !ClosingAt(s, j)
    {
      NotClosingAt(s, j);
    }
    assert FindClosing(s, 12) == None;
    assert FindClosing(s, 11) == None;
    assert FindClosing(s, 10) == None;
    assert FindClosing(s, 9) == None;
    assert FindClosing(s, 8) == None;
    assert FindClosing(s, 7) == None;
    assert FindClosing(s, 6) == None;
    assert FindClosing(s, 5) == None;
    assert FindClosing(s, 4) == None;
  }

  lemma NotClosingAt(s: string, j: nat)
    requires j < |s| && s[j] != '\n'
    ensures !ClosingAt(s, j)
  {
    if j + |Closing| <= |s| {
      assert s[j..j + |Closing|][0] == s[j];
    }
  }

  /** With a match, the input is the opening delimiter, the front matter, the first
      closing delimiter and the body, in that order, and the keys come from the front
      matter's lines. */
  lemma FrontMatterSplit(content: string, json: JsonParser)
    requires Opening <= content
    requires exists j: nat :: |Opening| <= j && ClosingAt(content, j)
    ensures var k := FindClosing(content, |Opening|);
      && k.Some?
      && FrontMatterOf(content, json).content == content[k.value + |Closing|..]
      && FrontMatterOf(content, json).metadata
         == Assign(Entries(Split(content[|Opening|..k.value], '\n'), json))
  {
  }

  /** Every key comes from some entry for it, and every entry's key other than
      `__proto__` is present. */
  lemma {:induction false} AssignKeys(entries: seq<Option<(string, MetaValue)>>, key: string)
    ensures key in Assign(entries) <==> key != "__proto__" && exists i :: 0 <= i < |entries| && EntryFor(entries[i], key)
    decreases |entries|
  {
    if entries != [] {
      var init := entries[..|entries| - 1];
      AssignKeys(init, key);
      if exists i :: 0 <= i < |init| && EntryFor(init[i], key) {
        var i :| 0 <= i < |init| && EntryFor(init[i], key);
        assert entries[i] == init[i];
      }
      if exists i :: 0 <= i < |entries| && EntryFor(entries[i], key) {
        var i :| 0 <= i < |entries| && EntryFor(entries[i], key);
        if i < |init| {
          assert init[i] == entries[i];
        }
      }
    }
  }

  /** A later entry with the same key overwrites an earlier one: the stored value is that
      of the last entry for the key. */
  lemma {:induction false} AssignLastWins(entries: seq<Option<(string, MetaValue)>>, key: string)
    requires key in Assign(entries)
    ensures exists i ::
      && 0 <= i < |entries|
      && entries[i] == Some((key, Assign(entries)[key]))
      && forall j :: i < j < |entries| ==> !EntryFor(entries[j], key)
    decreases |entries|
  {
    var init := entries[..|entries| - 1];
    var last := entries[|entries| - 1];
    if EntryFor(last, key) {
      assert entries[|entries| - 1] == Some((key, Assign(entries)[key]));
    } else {
      assert Assign(entries) == Assign(init) || (last.Some? && last.value.0 != key);
      assert key in Assign(init);
      AssignLastWins(init, key);
      var i :|
        && 0 <= i < |init|
        && init[i] == Some((key, Assign(init)[key]))
        && forall j :: i < j < |init| ==> !EntryFor(init[j], key);
      assert entries[i] == init[i];
      forall j | i < j < |entries|
        ensures !EntryFor(entries[j], key)
      {
        if j < |init| {
          assert entries[j] == init[j];
        }
      }
    }
  }

  /** A `__proto__:` line creates no key, while a `constructor:` line does. */
  lemma ProtoLineIgnored(es: seq<Option<(string, MetaValue)>>)
    requires es == [Some(("__proto__", Str("x"))), Some(("constructor", Str("y")))]
    ensures Assign(es) == map["constructor" := Str("y")]
  {
    var first := es[..1];
    assert first[..0] == [];
    assert Assign(first) == Store(map[], "__proto__", Str("x")) == map[];
    assert Assign(es) == Store(Assign(first), "constructor", Str("y"));
  }

  /** Two lines with the same key: the second value is kept. */
  lemma DuplicateKeyExample(json: JsonParser)
    ensures Assign([Some(("title", Str("a"))), None, Some(("title", Str("b")))]) == map["title" := Str("b")]
  {
    var es := [Some(("title", Str("a"))), None, Some(("title", Str("b")))];
    assert es[..2][..1] == [Some(("title", Str("a")))];
    assert [Some(("title", Str("a")))][..0] == [];
  }

  /** A plain tag character: not white space, not a quote, not a comma. */
  predicate PlainChar(c: char) {
    !IsSpace(c) && !IsQuote(c) && c != ','
  }

  /** `tags: [a, b, c]` (three one-letter tags) is not valid JSON; the comma split still
      gives the three tags. */
  lemma FallbackExample(json: JsonParser, a: char, b: char, c: char, v: string)
    requires PlainChar(a) && PlainChar(b) && PlainChar(c) && v == ['[', a, ',', ' ', b, ',', ' ', c, ']']
    requires json(v) == None
    ensures ValueOf("tags", v, json) == List([[a], [b], [c]])
  {
    assert Unquote(v) == v;
    FallbackPieces(a, b, c, v);
  }

  lemma FallbackPieces(a: char, b: char, c: char, v: string)
    requires PlainChar(a) && PlainChar(b) && PlainChar(c) && v == ['[', a, ',', ' ', b, ',', ' ', c, ']']
    ensures TagsFallback(v) == [[a], [b], [c]]
  {
    var x, y, z := [a], [' ', b], [' ', c];
    assert v == ['['] + (x + [','] + y + [','] + z) + [']'];
    FallbackThree(v, x, y, z);
    TrimExample(x, a);
    TrimExample(y, b);
    TrimExample(z, c);
  }

  /** The fallback on a bracketed list of three comma-free pieces. */
  lemma FallbackThree(v: string, x: string, y: string, z: string)
    requires ',' !in x && ',' !in y && ',' !in z
    requires v == ['['] + (x + [','] + y + [','] + z) + [']']
    ensures TagsFallback(v) == [StripTagQuotes(Trim(x)), StripTagQuotes(Trim(y)), StripTagQuotes(Trim(z))]
  {
    var inner := x + [','] + y + [','] + z;
    assert v[1..|v| - 1] == inner;
    SplitThree(x, y, z);
    var r := TagsFallback(v);
    Triple(r, StripTagQuotes(Trim(x)), StripTagQuotes(Trim(y)), StripTagQuotes(Trim(z)));
  }

  lemma Triple<T>(r: seq<T>, x: T, y: T, z: T)
    requires |r| == 3 && r[0] == x && r[1] == y && r[2] == z
    ensures r == [x, y, z]
  {
  }

  /** Three comma-free pieces joined by commas split back into those pieces. */
  lemma SplitThree(x: string, y: string, z: string)
    requires ',' !in x && ',' !in y && ',' !in z
    ensures Split(x + [','] + y + [','] + z, ',') == [x, y, z]
  {
    var tail := y + [','] + z;
    assert x + [','] + y + [','] + z == x + [','] + tail;
    SplitAfter(x, ',', tail);
    SplitAfter(y, ',', z);
    SplitNone(z, ',');
  }

  lemma TrimExample(s: string, c: char)
    requires (s == [' ', c] || s == [c]) && PlainChar(c)
    ensures StripTagQuotes(Trim(s)) == [c]
  {
    if s == [c] {
      assert SkipSpace(s, 0) == 0;
      assert SkipSpaceBack(s, 0, 1) == 1;
    } else {
      assert SkipSpace(s, 0) == 1;
      assert SkipSpaceBack(s, 1, 2) == 2;
    }
  }

  /** `tags: ["a","b","c"]` is valid JSON and gives the same list. */
  lemma JsonExample(json: JsonParser)
    requires json("[\"a\",\"b\",\"c\"]") == Some(["a", "b", "c"])
    ensures ValueOf("tags", "[\"a\",\"b\",\"c\"]", json) == List(["a", "b", "c"])
  {
  }

  /** Any other key keeps a bracketed value as text. */
  lemma OtherKeysKeepBrackets(json: JsonParser)
    ensures ValueOf("category", "[a, b]", json) == Str("[a, b]")
  {
  }
}
