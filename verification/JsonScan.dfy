/** Finding a JSON object inside a model's reply. */
module JsonScan {
  import opened Wrappers
  import opened Json
  import opened Text

  // ----- The brace scan -----

  /** Opening braces minus closing braces. */
  function Balance(s: string): int {
    if s == "" then 0
    else Balance(s[..|s| - 1]) + (if s[|s| - 1] == '{' then 1 else if s[|s| - 1] == '}' then -1 else 0)
  }

  lemma {:induction false} BalanceConcat(a: string, b: string)
    ensures Balance(a + b) == Balance(a) + Balance(b)
  {
    if b == "" {
      assert a + b == a;
    } else {
      BalanceConcat(a, b[..|b| - 1]);
      assert (a + b)[..|a + b| - 1] == a + b[..|b| - 1];
    }
  }

  /**
   * `s[start..end]` is the shortest balanced text that starts at the first opening brace:
   * no shorter text from there on closes every brace it opens.
   */
  ghost predicate IsFirstObject(s: string, start: nat, end: nat) {
    && start < end <= |s| && s[start] == '{' && (forall i :: 0 <= i < start ==> s[i] != '{')
    && Balance(s[start..end]) == 0
    && forall e :: start < e < end ==> Balance(s[start..e]) > 0
  }

  lemma FirstObjectUnique(s: string, start: nat, end: nat, start': nat, end': nat)
    requires IsFirstObject(s, start, end) && IsFirstObject(s, start', end')
    ensures start == start' && end == end'
  {
  }

  /** Scans for the first object; gives up when there is none or it never closes. */
  method ScanObject(s: string) returns (slice: Option<string>)
    ensures slice.Some? ==> exists start: nat, end: nat :: IsFirstObject(s, start, end) && slice.value == s[start..end]
    ensures slice.None? ==> forall start: nat, end: nat :: !IsFirstObject(s, start, end)
  {
    var start := 0;
    while start < |s| && s[start] != '{'
      invariant 0 <= start <= |s| && forall i :: 0 <= i < start ==> s[i] != '{'
    {
      start := start + 1;
    }
    if start == |s| {
      return None;
    }
    var depth := 0;
    for index := start to |s|
      invariant depth == Balance(s[start..index])
      invariant forall e :: start < e <= index ==> Balance(s[start..e]) > 0
    {
      assert s[start..index + 1][..index - start] == s[start..index];
      assert s[start..index + 1][index - start] == s[index];
      if s[index] == '{' {
        depth := depth + 1;
      } else if s[index] == '}' {
        depth := depth - 1;
        if depth == 0 {
          assert IsFirstObject(s, start, index + 1);
          return Some(s[start..index + 1]);
        }
      }
    }
    slice := None;
  }

  ghost function FirstObject(s: string): Option<string> {
    if exists start: nat, end: nat :: IsFirstObject(s, start, end) then
      var start: nat, end: nat :| IsFirstObject(s, start, end);
      Some(s[start..end])
    else None
  }

  // ----- Extraction -----

  /** The lines without a last one that is a closing fence. */
  function DropClosingFence(lines: seq<string>): seq<string> {
    if lines != [] && Strip(lines[|lines| - 1]) == "```" then lines[..|lines| - 1] else lines
  }

  /** The text to look into: the reply without surrounding white space and without a code fence. */
  function Candidate(text: string): string {
    var stripped := Strip(text);
    if !StartsWith(stripped, "```") then stripped
    else
      var lines := SplitLines(stripped);
      var body := if lines != [] && StartsWith(StripLeft(lines[0]), "```") then lines[1..] else lines;
      Strip(Join("\n", DropClosingFence(body)))
  }

  /** The JSON parser, a library: `None` when the text is not valid JSON. */
  type Loads = string -> Option<Json>

  /** An object, when the parser found one. */
  function AsObject(value: Json): Option<map<string, Json>> {
    if value.Obj? then Some(value.fields) else None
  }

  function Parsed(value: Option<Json>): Option<map<string, Json>> {
    if value.Some? then AsObject(value.value) else None
  }

  ghost function Extracted(text: string, loads: Loads): Option<map<string, Json>> {
    var candidate := Candidate(text);
    if loads(candidate).Some? then Parsed(loads(candidate))
    else
      var slice := FirstObject(candidate);
      if slice.Some? then Parsed(loads(slice.value)) else None
  }

  method ExtractJson(text: string, loads: Loads) returns (data: Option<map<string, Json>>)
    ensures data == Extracted(text, loads)
  {
    var candidate := Candidate(text);
    var whole := loads(candidate);
    if whole.Some? {
      return AsObject(whole.value);
    }
    var slice := ScanObject(candidate);
    if slice.Some? {
      ghost var start: nat, end: nat :| IsFirstObject(candidate, start, end) && slice.value == candidate[start..end];
      FirstObjectIs(candidate, start, end);
      var part := loads(slice.value);
      if part.Some? {
        return AsObject(part.value);
      }
    }
    data := None;
  }

  /**
   * An object is extracted exactly when the text that is looked into parses to it, or does not parse and
   * its first balanced part does: never another kind of value.
   */
  lemma ExtractedIff(text: string, loads: Loads, fields: map<string, Json>)
    ensures Extracted(text, loads) == Some(fields) <==>
      || loads(Candidate(text)) == Some(Obj(fields))
      || (loads(Candidate(text)).None? && FirstObject(Candidate(text)).Some?
          && loads(FirstObject(Candidate(text)).value) == Some(Obj(fields)))
  {
  }

  lemma FirstObjectIs(s: string, start: nat, end: nat)
    requires IsFirstObject(s, start, end)
    ensures FirstObject(s) == Some(s[start..end])
  {
    var a: nat, b: nat :| IsFirstObject(s, a, b) && FirstObject(s) == Some(s[a..b]);
    FirstObjectUnique(s, start, end, a, b);
  }

  // ----- Printed JSON -----

  /**
   * A JSON text as written (RFC 8259, section 2): a scalar is a literal, a number or a quoted
   * string; the other strings are the white space and punctuation around nested values.
   */
  datatype JsonText =
    | ScalarText(text: string)
    | ArrayText(items: seq<Item>, pad: string)
    | ObjectText(members: seq<Member>, pad: string)

  datatype Item = Item(before: string, value: JsonText, after: string)
  datatype Member = Member(before: string, key: string, colon: string, value: JsonText, after: string)

  predicate BraceFree(s: string) {
    '{' !in s && '}' !in s
  }

  function Render(t: JsonText): string
    decreases t
  {
    match t
    case ScalarText(text) => text
    case ArrayText(items, pad) => "[" + RenderItems(items) + pad + "]"
    case ObjectText(members, pad) => "{" + RenderMembers(members) + pad + "}"
  }

  /** Items separated by commas. */
  function RenderItems(items: seq<Item>): string
    decreases items
  {
    if items == [] then ""
    else
      var first := items[0].before + Render(items[0].value) + items[0].after;
      if |items| == 1 then first else first + "," + RenderItems(items[1..])
  }

  /** `key: value` members separated by commas. */
  function RenderMembers(members: seq<Member>): string
    decreases members
  {
    if members == [] then ""
    else
      var m := members[0];
      var first := m.before + m.key + m.colon + Render(m.value) + m.after;
      if |members| == 1 then first else first + "," + RenderMembers(members[1..])
  }

  /** No key, string or other leaf contains a brace. */
  predicate Plain(t: JsonText)
    decreases t
  {
    match t
    case ScalarText(text) => BraceFree(text)
    case ArrayText(items, pad) => BraceFree(pad) && PlainItems(items)
    case ObjectText(members, pad) => BraceFree(pad) && PlainMembers(members)
  }

  predicate PlainItems(items: seq<Item>)
    decreases items
  {
    items == [] || (
      && BraceFree(items[0].before) && Plain(items[0].value) && BraceFree(items[0].after)
      && PlainItems(items[1..]))
  }

  predicate PlainMembers(members: seq<Member>)
    decreases members
  {
    members == [] || (
      var m := members[0];
      && BraceFree(m.before) && BraceFree(m.key) && BraceFree(m.colon) && Plain(m.value) && BraceFree(m.after)
      && PlainMembers(members[1..]))
  }

  /** Every brace that opens closes, and none closes that did not open. */
  ghost predicate Nested(s: string) {
    Balance(s) == 0 && forall e :: 0 <= e <= |s| ==> Balance(s[..e]) >= 0
  }

  lemma {:induction false} BraceFreeNested(s: string)
    requires BraceFree(s)
    ensures Nested(s)
  {
    if s != "" {
      var n := |s| - 1;
      BraceFreeNested(s[..n]);
      forall e | 0 <= e <= |s| ensures Balance(s[..e]) >= 0 {
        if e <= n {
          assert s[..e] == s[..n][..e];
        } else {
          assert s[..e] == s;
        }
      }
    }
  }

  lemma NestedConcat(a: string, b: string)
    requires Nested(a) && Nested(b)
    ensures Nested(a + b)
  {
    BalanceConcat(a, b);
    forall e | 0 <= e <= |a + b| ensures Balance((a + b)[..e]) >= 0 {
      if e <= |a| {
        assert (a + b)[..e] == a[..e];
      } else {
        assert (a + b)[..e] == a + b[..e - |a|];
        BalanceConcat(a, b[..e - |a|]);
      }
    }
  }

  /** Between braces every prefix balances one higher. */
  lemma WrappedPrefix(inner: string, e: nat)
    requires e <= |inner|
    ensures Balance(("{" + inner + "}")[..e + 1]) == 1 + Balance(inner[..e])
  {
    assert ("{" + inner + "}")[..e + 1] == "{" + inner[..e];
    BalanceConcat("{", inner[..e]);
    assert Balance("{") == 1;
  }

  lemma WrappedBalance(inner: string)
    ensures Balance("{" + inner + "}") == Balance(inner)
  {
    BalanceConcat("{", inner);
    BalanceConcat("{" + inner, "}");
    assert Balance("{") == 1 && Balance("}") == -1;
  }

  /** Balanced, and open until its very last character. */
  ghost predicate OpenToTheEnd(s: string) {
    Balance(s) == 0 && forall e :: 0 < e < |s| ==> Balance(s[..e]) > 0
  }

  /** Wrapped in braces, a text stays open to the end exactly when it is nested. */
  lemma WrapPrefixes(inner: string)
    ensures OpenToTheEnd("{" + inner + "}") <==> Nested(inner)
  {
    var s := "{" + inner + "}";
    WrappedBalance(inner);
    if Nested(inner) {
      forall e | 0 < e < |s| ensures Balance(s[..e]) > 0 {
        WrappedPrefix(inner, e - 1);
      }
    }
    if OpenToTheEnd(s) {
      forall e | 0 <= e <= |inner| ensures Balance(inner[..e]) >= 0 {
        WrappedPrefix(inner, e);
        assert Balance(s[..e + 1]) > 0;
      }
    }
  }

  lemma WrapNested(inner: string)
    requires Nested(inner)
    ensures Nested("{" + inner + "}")
  {
    var s := "{" + inner + "}";
    WrapPrefixes(inner);
    forall e | 0 <= e <= |s| ensures Balance(s[..e]) >= 0 {
      if e == 0 {
        assert s[..e] == "";
      } else if e == |s| {
        assert s[..e] == s;
      }
    }
  }

  /** The braces of a printed value are nested. */
  lemma {:induction false} RenderNested(t: JsonText)
    requires Plain(t)
    ensures Nested(Render(t))
    decreases t
  {
    match t
    case ScalarText(text) =>
      BraceFreeNested(text);
    case ArrayText(items, pad) =>
      ItemsNested(items);
      BraceFreeNested("[");
      BraceFreeNested(pad);
      BraceFreeNested("]");
      NestedConcat("[", RenderItems(items));
      NestedConcat("[" + RenderItems(items), pad);
      NestedConcat("[" + RenderItems(items) + pad, "]");
    case ObjectText(members, pad) =>
      MembersNested(members);
      BraceFreeNested(pad);
      NestedConcat(RenderMembers(members), pad);
      WrapNested(RenderMembers(members) + pad);
      assert Render(t) == "{" + (RenderMembers(members) + pad) + "}";
  }

  lemma {:induction false} ItemsNested(items: seq<Item>)
    requires PlainItems(items)
    ensures Nested(RenderItems(items))
    decreases items
  {
    if items != [] {
      var i := items[0];
      var first := i.before + Render(i.value) + i.after;
      RenderNested(i.value);
      BraceFreeNested(i.before);
      BraceFreeNested(i.after);
      NestedConcat(i.before, Render(i.value));
      NestedConcat(i.before + Render(i.value), i.after);
      BraceFreeNested(",");
      NestedConcat(first, ",");
      ItemsNested(items[1..]);
      NestedConcat(first + ",", RenderItems(items[1..]));
    }
  }

  lemma {:induction false} MembersNested(members: seq<Member>)
    requires PlainMembers(members)
    ensures Nested(RenderMembers(members))
    decreases members
  {
    if members != [] {
      var m := members[0];
      var first := m.before + m.key + m.colon + Render(m.value) + m.after;
      RenderNested(m.value);
      BraceFreeNested(m.before);
      BraceFreeNested(m.key);
      BraceFreeNested(m.colon);
      BraceFreeNested(m.after);
      NestedConcat(m.before, m.key);
      NestedConcat(m.before + m.key, m.colon);
      NestedConcat(m.before + m.key + m.colon, Render(m.value));
      NestedConcat(m.before + m.key + m.colon + Render(m.value), m.after);
      BraceFreeNested(",");
      NestedConcat(first, ",");
      MembersNested(members[1..]);
      NestedConcat(first + ",", RenderMembers(members[1..]));
    }
  }

  lemma FoundIsOpenToTheEnd(prose: string, printed: string, suffix: string)
    requires printed != "" && printed[0] == '{'
    ensures IsFirstObject(prose + printed + suffix, |prose|, |prose| + |printed|) <==>
            '{' !in prose && OpenToTheEnd(printed)
  {
    var s, start, end := prose + printed + suffix, |prose|, |prose| + |printed|;
    assert s[start..end] == printed;
    assert forall i :: 0 <= i < start ==> s[i] == prose[i];
    assert forall e :: start < e < end ==> s[start..e] == printed[..e - start];
    if IsFirstObject(s, start, end) {
      forall e | 0 < e < |printed| ensures Balance(printed[..e]) > 0 {
        assert s[start..start + e] == printed[..e];
      }
    }
  }

  /** What stands between two braces is the first object exactly when no brace opens before and it is nested. */
  lemma ScanFindsWrapped(prose: string, inner: string, suffix: string)
    ensures var printed := "{" + inner + "}";
      IsFirstObject(prose + printed + suffix, |prose|, |prose| + |printed|) <==> '{' !in prose && Nested(inner)
  {
    FoundIsOpenToTheEnd(prose, "{" + inner + "}", suffix);
    WrapPrefixes(inner);
  }

  /** Behind prose that opens no brace, what the scan returns begins where the prose ends. */
  lemma ReturnedBehindProse(prose: string, printed: string, suffix: string)
    requires '{' !in prose && printed != "" && printed[0] == '{'
    ensures FirstObject(prose + printed + suffix) == Some(printed) <==>
            IsFirstObject(prose + printed + suffix, |prose|, |prose| + |printed|)
  {
    var s, start, end := prose + printed + suffix, |prose|, |prose| + |printed|;
    assert s[start..end] == printed;
    if IsFirstObject(s, start, end) {
      FirstObjectIs(s, start, end);
    }
    if FirstObject(s) == Some(printed) {
      var a: nat, b: nat :| IsFirstObject(s, a, b) && s[a..b] == printed;
      assert s[start] == '{' && forall i :: 0 <= i < start ==> s[i] == prose[i];
      assert a == start && b == end;
    }
  }

  /** Behind such prose, the scan returns a text between braces exactly when it is nested. */
  lemma ScanReturnsWrapped(prose: string, inner: string, suffix: string)
    requires '{' !in prose
    ensures var printed := "{" + inner + "}";
      FirstObject(prose + printed + suffix) == Some(printed) <==> Nested(inner)
  {
    ReturnedBehindProse(prose, "{" + inner + "}", suffix);
    ScanFindsWrapped(prose, inner, suffix);
  }

  lemma NothingAround(s: string)
    ensures "" + s + "" == s
  {
  }

  lemma ScanReturnsWhole(inner: string)
    ensures FirstObject("{" + inner + "}") == Some("{" + inner + "}") <==> Nested(inner)
  {
    NothingAround("{" + inner + "}");
    ScanReturnsWrapped("", inner, "");
  }

  /** What a printed object has between its braces. */
  function Inner(t: JsonText): string
    requires t.ObjectText?
  {
    RenderMembers(t.members) + t.pad
  }

  lemma InnerNested(t: JsonText)
    requires t.ObjectText?
    ensures Render(t) == "{" + Inner(t) + "}"
    ensures Plain(t) ==> Nested(Inner(t))
  {
    if Plain(t) {
      MembersNested(t.members);
      BraceFreeNested(t.pad);
      NestedConcat(RenderMembers(t.members), t.pad);
    }
  }

  /**
   * Behind any prose and before any suffix, the scan finds the printed object exactly when no brace
   * opens in the prose and the braces within the object nest, those in its strings included.
   */
  lemma ScanFindsObject(prose: string, t: JsonText, suffix: string)
    requires t.ObjectText?
    ensures IsFirstObject(prose + Render(t) + suffix, |prose|, |prose| + |Render(t)|) <==> '{' !in prose && Nested(Inner(t))
    ensures '{' !in prose ==> (FirstObject(prose + Render(t) + suffix) == Some(Render(t)) <==> Nested(Inner(t)))
  {
    InnerNested(t);
    ScanFindsWrapped(prose, Inner(t), suffix);
    if '{' !in prose {
      ScanReturnsWrapped(prose, Inner(t), suffix);
    }
  }

  lemma ObjectIsTrim(t: JsonText)
    requires t.ObjectText?
    ensures Render(t) != "" && IsTrim(Render(t))
  {
  }
}
