/** The text format of the saved balances, wins and losses: mapToJson and
    escape write a map as {"id":value,...}; readIntMap reads one such map back
    by plain string searching. The file reads and writes are not modelled. */
module Persist {
  import opened Wrappers
  import opened Text

  /** escape: backslashes are doubled first, then quotes get a backslash. */
  function Escape(s: string): string {
    ReplaceChar(ReplaceChar(s, '\\', "\\\\"), '"', "\\\"")
  }

  function EscapeChar(c: char): string {
    if c == '\\' then "\\\\" else if c == '"' then "\\\"" else [c]
  }

  /** Escaping character by character. */
  function EscapeEach(s: string): string
    decreases |s|
  {
    if |s| == 0 then "" else EscapeChar(s[0]) + EscapeEach(s[1..])
  }

  /** Reading a JSON string body: a backslash takes the next character literally. */
  function Unescape(s: string): string
    decreases |s|
  {
    if |s| == 0 then ""
    else if s[0] == '\\' && |s| >= 2 then [s[1]] + Unescape(s[2..])
    else [s[0]] + Unescape(s[1..])
  }

  lemma {:induction false} ReplaceCharAppend(a: string, b: string, c: char, rep: string)
    ensures ReplaceChar(a + b, c, rep) == ReplaceChar(a, c, rep) + ReplaceChar(b, c, rep)
    decreases |a|
  {
    if |a| > 0 {
      assert (a + b)[1..] == a[1..] + b;
      ReplaceCharAppend(a[1..], b, c, rep);
    } else {
      assert a + b == b;
    }
  }

  /** The two replaces together escape each character on its own: the quote
      pass never touches the backslashes the first pass added. */
  lemma {:induction false} EscapeIsPerChar(s: string)
    ensures Escape(s) == EscapeEach(s)
    decreases |s|
  {
    if |s| > 0 {
      var first := if s[0] == '\\' then "\\\\" else [s[0]];
      assert ReplaceChar(s, '\\', "\\\\") == first + ReplaceChar(s[1..], '\\', "\\\\");
      ReplaceCharAppend(first, ReplaceChar(s[1..], '\\', "\\\\"), '"', "\\\"");
      assert ReplaceChar(first, '"', "\\\"") == EscapeChar(s[0]);
      EscapeIsPerChar(s[1..]);
    }
  }

  lemma {:induction false} UnescapeEscapeEach(s: string)
    ensures Unescape(EscapeEach(s)) == s
    decreases |s|
  {
    if |s| > 0 {
      var e := EscapeEach(s);
      assert e == EscapeChar(s[0]) + EscapeEach(s[1..]);
      if s[0] == '\\' || s[0] == '"' {
        assert e[2..] == EscapeEach(s[1..]);
      } else {
        assert e[1..] == EscapeEach(s[1..]);
      }
      UnescapeEscapeEach(s[1..]);
      assert [s[0]] + s[1..] == s;
    }
  }

  /** escape loses nothing: a JSON reader gets the original key back. */
  lemma UnescapeEscape(s: string)
    ensures Unescape(Escape(s)) == s
  {
    EscapeIsPerChar(s);
    UnescapeEscapeEach(s);
  }

  /** One map entry as mapToJson writes it: "key":value. */
  function EntryText(e: (string, int)): string {
    "\"" + Escape(e.0) + "\":" + IntToString(e.1)
  }

  /** The entry texts in the order the entries are visited. */
  function EntryTexts(es: seq<(string, int)>): (ts: seq<string>)
    ensures |ts| == |es|
    decreases |es|
  {
    if |es| == 0 then [] else EntryTexts(es[..|es| - 1]) + [EntryText(es[|es| - 1])]
  }

  lemma {:induction false} EntryTextsAt(es: seq<(string, int)>, i: nat)
    requires i < |es|
    ensures EntryTexts(es)[i] == EntryText(es[i])
    decreases |es|
  {
    if i < |es| - 1 {
      EntryTextsAt(es[..|es| - 1], i);
    }
  }

  lemma EntryTextsSnoc(es: seq<(string, int)>, k: nat)
    requires k < |es|
    ensures EntryTexts(es[..k + 1]) == EntryTexts(es[..k]) + [EntryText(es[k])]
  {
    assert es[..k + 1][..k] == es[..k];
  }

  /** Writing one more entry appends it, after a comma unless it is the first. */
  lemma JoinEntriesSnoc(es: seq<(string, int)>, k: nat)
    requires k < |es|
    ensures Join(EntryTexts(es[..k + 1]), ',')
         == Join(EntryTexts(es[..k]), ',') + (if k == 0 then "" else ",") + EntryText(es[k])
  {
    EntryTextsSnoc(es, k);
    if k > 0 {
      JoinSnoc(EntryTexts(es[..k]), ',', EntryText(es[k]));
    }
  }

  /** The text of a map whose entries are visited in the order `es`. */
  function JsonObject(es: seq<(string, int)>): string {
    "{" + Join(EntryTexts(es), ',') + "}"
  }

  /** mapToJson: the StringBuilder loop that writes the entries with commas
      between them. `es` is the map's entries in its iteration order. */
  method MapToJson(es: seq<(string, int)>) returns (json: string)
    ensures json == JsonObject(es)
  {
    var sb := "{";
    var first := true;
    for k := 0 to |es|
      invariant first <==> k == 0
      invariant sb == "{" + Join(EntryTexts(es[..k]), ',')
    {
      var t := EntryText(es[k]);
      JoinEntriesSnoc(es, k);
      if !first {
        sb := sb + ",";
      }
      first := false;
      sb := sb + t;
    }
    assert es[..|es|] == es;
    sb := sb + "}";
    json := sb;
  }

  /** The map a sequence of put calls builds. */
  function ToMap(es: seq<(string, int)>): map<string, int>
    decreases |es|
  {
    if |es| == 0 then map[] else ToMap(es[..|es| - 1])[es[|es| - 1].0 := es[|es| - 1].1]
  }

  /** One comma-separated part: split on ':', the key trimmed and stripped of
      quotes, the value trimmed and parsed; a part that does not split into
      exactly two pieces or whose value does not parse is skipped. */
  function PutPart(out: map<string, int>, part: string): map<string, int> {
    var kv := Split(part, ':');
    if |kv| != 2 then out
    else
      var k := ReplaceChar(Trim(kv[0]), '"', "");
      match ParseInt(Trim(kv[1]))
      case None => out
      case Some(v) => out[k := v]
  }

  function PutParts(parts: seq<string>): map<string, int>
    decreases |parts|
  {
    if |parts| == 0 then map[] else PutPart(PutParts(parts[..|parts| - 1]), parts[|parts| - 1])
  }

  /** A one-character string occurs exactly where that character is. */
  lemma OccursChar(s: string, c: char, i: nat)
    ensures OccursAt(s, [c], i) <==> i < |s| && s[i] == c
  {
    if i < |s| {
      assert s[i..i + 1] == [s[i]];
    }
  }

  /** readIntMap: the first occurrence of the key, the first '{' after it,
      the first '}' after that; the text between, trimmed, split on ','. */
  function ReadIntMapSpec(json: string, key: string): map<string, int> {
    match IndexOf(json, key, 0)
    case None => map[]
    case Some(idx) =>
      match IndexOf(json, "{", idx)
      case None => map[]
      case Some(start) =>
        match IndexOf(json, "}", start)
        case None => map[]
        case Some(end) =>
          OccursChar(json, '{', start);
          OccursChar(json, '}', end);
          BodyMap(Trim(json[start + 1..end]))
  }

  /** The map read from the trimmed text between the braces. */
  function BodyMap(body: string): map<string, int> {
    if body == "" then map[] else PutParts(Split(body, ','))
  }

  /** readIntMap, with its loop that fills the map part by part. */
  method ReadIntMap(json: string, key: string) returns (out: map<string, int>)
    ensures out == ReadIntMapSpec(json, key)
  {
    out := map[];
    var idx := IndexOf(json, key, 0);
    if idx.None? {
      return;
    }
    var start := IndexOf(json, "{", idx.value);
    if start.None? {
      return;
    }
    var end := IndexOf(json, "}", start.value);
    if end.None? {
      return;
    }
    OccursChar(json, '{', start.value);
    OccursChar(json, '}', end.value);
    out := ReadBody(Trim(json[start.value + 1..end.value]));
  }

  /** readIntMap's loop over the trimmed text between the braces: nothing
      for an empty text, otherwise each ','-separated part with exactly one
      ':' and an integer after it puts its entry, later parts winning. */
  method ReadBody(body: string) returns (out: map<string, int>)
    ensures out == BodyMap(body)
  {
    out := map[];
    if body == "" {
      return;
    }
    var parts := Split(body, ',');
    for i := 0 to |parts|
      invariant out == PutParts(parts[..i])
    {
      assert parts[..i + 1][..i] == parts[..i];
      var kv := Split(parts[i], ':');
      if |kv| == 2 {
        var k := ReplaceChar(Trim(kv[0]), '"', "");
        var v := ParseInt(Trim(kv[1]));
        if v.Some? {
          out := out[k := v.value];
        }
      }
    }
    assert parts[..|parts|] == parts;
  }

  /** A key the format carries unharmed: none of the characters the writer
      escapes or the reader splits on. */
  predicate PlainKey(k: string) {
    forall c :: c in k ==> c != '"' && c != '\\' && c != ',' && c != ':' && c != '}'
  }

  predicate Storable(es: seq<(string, int)>) {
    forall i :: 0 <= i < |es| ==> PlainKey(es[i].0) && IsInt32(es[i].1)
  }

  lemma EntryTextShape(e: (string, int))
    requires PlainKey(e.0)
    ensures EntryText(e) == ("\"" + e.0 + "\"") + [':'] + IntToString(e.1)
    ensures |EntryText(e)| > 0 && EntryText(e)[0] == '"'
    ensures EntryText(e)[|EntryText(e)| - 1] > ' '
    ensures ',' !in EntryText(e) && '}' !in EntryText(e)
  {
    assert Escape(e.0) == e.0;
    IntToStringShape(e.1);
    var t := EntryText(e);
    assert t[|t| - 1] == IntToString(e.1)[|IntToString(e.1)| - 1];
    forall c | c in t ensures c != ',' && c != '}' {
      var i :| 0 <= i < |t| && t[i] == c;
      if i >= |e.0| + 3 {
        assert t[i] == IntToString(e.1)[i - |e.0| - 3];
      } else if 1 <= i < |e.0| + 1 {
        assert t[i] == e.0[i - 1];
      }
    }
  }

  /** A written entry splits on ':' into the quoted key and the value. */
  lemma SplitEntry(e: (string, int))
    requires PlainKey(e.0)
    ensures Split(EntryText(e), ':') == ["\"" + e.0 + "\"", IntToString(e.1)]
  {
    EntryTextShape(e);
    var p := "\"" + e.0 + "\"";
    var t := IntToString(e.1);
    IntToStringShape(e.1);
    assert ':' !in p by {
      forall c | c in p ensures c != ':' {
        var i :| 0 <= i < |p| && p[i] == c;
        if 1 <= i < |p| - 1 { assert p[i] == e.0[i - 1]; }
      }
    }
    SplitOnFirst(p, ':', t);
    SplitOnAbsent(t, ':');
    assert SplitOn(EntryText(e), ':') == [p, t];
  }

  /** Reading back one written entry puts exactly that key and value. */
  lemma PutPartEntry(m: map<string, int>, e: (string, int))
    requires PlainKey(e.0) && IsInt32(e.1)
    ensures PutPart(m, EntryText(e)) == m[e.0 := e.1]
  {
    var p := "\"" + e.0 + "\"";
    var t := IntToString(e.1);
    SplitEntry(e);
    IntToStringShape(e.1);
    TrimVisible(p);
    TrimVisible(t);
    ReplaceCharAppend("\"" + e.0, "\"", '"', "");
    ReplaceCharAppend("\"", e.0, '"', "");
    assert ReplaceChar(p, '"', "") == e.0;
    ParseIntToString(e.1);
  }

  lemma {:induction false} PutPartsEntries(es: seq<(string, int)>)
    requires Storable(es)
    ensures PutParts(EntryTexts(es)) == ToMap(es)
    decreases |es|
  {
    if |es| > 0 {
      var n := |es| - 1;
      assert EntryTexts(es)[..n] == EntryTexts(es[..n]);
      assert EntryTexts(es)[n] == EntryText(es[n]);
      PutPartsEntries(es[..n]);
      PutPartEntry(ToMap(es[..n]), es[n]);
    }
  }

  lemma {:induction false} JoinShape(parts: seq<string>, d: char)
    requires |parts| >= 1 && forall i :: 0 <= i < |parts| ==> |parts[i]| > 0
    ensures |Join(parts, d)| > 0
    ensures Join(parts, d)[0] == parts[0][0]
    ensures Join(parts, d)[|Join(parts, d)| - 1] == parts[|parts| - 1][|parts[|parts| - 1]| - 1]
    decreases |parts|
  {
    if |parts| > 1 {
      JoinShape(parts[1..], d);
    }
  }

  lemma {:induction false} JoinAvoids(parts: seq<string>, d: char, c: char)
    requires c != d
    requires forall i :: 0 <= i < |parts| ==> c !in parts[i]
    ensures c !in Join(parts, d)
    decreases |parts|
  {
    if |parts| > 1 {
      JoinAvoids(parts[1..], d, c);
    }
  }

  /** The body between the braces splits back into the written entries. */
  lemma SplitBody(es: seq<(string, int)>)
    requires |es| > 0 && Storable(es)
    ensures var body := Join(EntryTexts(es), ',');
      && Trim(body) == body && body != ""
      && Split(body, ',') == EntryTexts(es)
      && '}' !in body
  {
    var ts := EntryTexts(es);
    forall i | 0 <= i < |ts| ensures ',' !in ts[i] && '}' !in ts[i] && |ts[i]| > 0 && ts[i][0] == '"'
                                    && ts[i][|ts[i]| - 1] > ' ' {
      EntryTextsAt(es, i);
      EntryTextShape(es[i]);
    }
    JoinShape(ts, ',');
    var body := Join(ts, ',');
    TrimVisible(body);
    SplitJoin(ts, ',');
    JoinAvoids(ts, ',', '}');
  }

  /** The first '{' from `from` on is the one that opens the body. */
  lemma FindOpen(doc: string, head: string, body: string, post: string, from: nat)
    requires doc == head + "{" + body + "}" + post
    requires from <= |head|
    requires forall j :: from <= j < |head| ==> head[j] != '{'
    ensures IndexOf(doc, "{", from) == Some(|head|)
  {
    forall j: nat | from <= j < |head| ensures !OccursAt(doc, "{", j) {
      OccursChar(doc, '{', j);
      assert doc[j] == head[j];
    }
    OccursChar(doc, '{', |head|);
    IndexOfIs(doc, "{", from, |head|);
  }

  /** From the '{' on, the first '}' is the one that closes a body without one. */
  lemma FindClose(doc: string, head: string, body: string, post: string)
    requires doc == head + "{" + body + "}" + post
    requires '}' !in body
    ensures IndexOf(doc, "}", |head|) == Some(|head| + 1 + |body|)
    ensures doc[|head| + 1..|head| + 1 + |body|] == body
  {
    var q := |head| + 1 + |body|;
    assert doc[|head| + 1..q] == body;
    assert forall j: nat :: |head| <= j < q ==> !OccursAt(doc, "}", j) by {
      forall j: nat | |head| <= j < q ensures !OccursAt(doc, "}", j) {
        OccursChar(doc, '}', j);
        if j > |head| {
          var c := body[j - |head| - 1];
          assert c in body;
          assert doc[j] == c;
        }
      }
    }
    assert OccursAt(doc, "}", q) by {
      OccursChar(doc, '}', q);
    }
    IndexOfIs(doc, "}", |head|, q);
  }

  /** readIntMap reads back the map mapToJson wrote after `head`, when the
      key is first found inside `head` with no '{' after it there, and the
      entries' keys avoid the format's special characters and their values
      fit in 32 bits. Later entries win over earlier ones with the same key,
      as in the map the puts build. */
  lemma ReadBack(doc: string, head: string, key: string, idx: nat, es: seq<(string, int)>, post: string)
    requires doc == head + JsonObject(es) + post
    requires IndexOf(doc, key, 0) == Some(idx)
    requires idx <= |head| && forall j :: idx <= j < |head| ==> head[j] != '{'
    requires Storable(es)
    ensures ReadIntMapSpec(doc, key) == ToMap(es)
  {
    var body := Join(EntryTexts(es), ',');
    var end := |head| + 1 + |body|;
    assert IndexOf(doc, "{", idx) == Some(|head|) && IndexOf(doc, "}", |head|) == Some(end)
           && doc[|head| + 1..end] == body by {
      DocLayout(head, es, post);
      BodyMapEntries(es);
      LocateBody(doc, head, body, post, idx);
    }
    ReadBackAt(doc, key, idx, |head|, end, es);
  }

  /** The document is the head, then the braces around the entries' text. */
  lemma DocLayout(head: string, es: seq<(string, int)>, post: string)
    ensures head + JsonObject(es) + post == head + "{" + Join(EntryTexts(es), ',') + "}" + post
  {
  }

  /** In a document laid out as head, '{', a body without '}', '}', the
      first '{' after a '{'-free stretch of the head opens the body and the
      first '}' after it closes it. */
  lemma LocateBody(doc: string, head: string, body: string, post: string, from: nat)
    requires doc == head + "{" + body + "}" + post && '}' !in body
    requires from <= |head| && forall j :: from <= j < |head| ==> head[j] != '{'
    ensures IndexOf(doc, "{", from) == Some(|head|)
    ensures IndexOf(doc, "}", |head|) == Some(|head| + 1 + |body|)
    ensures doc[|head| + 1..|head| + 1 + |body|] == body
  {
    FindOpen(doc, head, body, post, from);
    FindClose(doc, head, body, post);
  }

  /** Once the key, the '{' and the '}' are found around the text mapToJson
      wrote, readIntMap returns the written map. */
  lemma ReadBackAt(doc: string, key: string, idx: nat, start: nat, end: nat, es: seq<(string, int)>)
    requires IndexOf(doc, key, 0) == Some(idx)
    requires IndexOf(doc, "{", idx) == Some(start)
    requires IndexOf(doc, "}", start) == Some(end)
    requires start < end && doc[start + 1..end] == Join(EntryTexts(es), ',')
    requires Storable(es)
    ensures ReadIntMapSpec(doc, key) == ToMap(es)
  {
    BodyMapEntries(es);
    ReadIntMapAt(doc, key, idx, start, end, Join(EntryTexts(es), ','));
  }

  /** The text mapToJson writes between the braces reads back as the map. */
  lemma BodyMapEntries(es: seq<(string, int)>)
    requires Storable(es)
    ensures '}' !in Join(EntryTexts(es), ',')
    ensures BodyMap(Trim(Join(EntryTexts(es), ','))) == ToMap(es)
  {
    if |es| > 0 {
      SplitBody(es);
      PutPartsEntries(es);
    }
  }

  /** What readIntMap returns once the key, the '{' and the '}' are found. */
  lemma ReadIntMapAt(json: string, key: string, idx: nat, start: nat, end: nat, body: string)
    requires IndexOf(json, key, 0) == Some(idx)
    requires IndexOf(json, "{", idx) == Some(start)
    requires IndexOf(json, "}", start) == Some(end)
    requires start < end && json[start + 1..end] == body
    ensures ReadIntMapSpec(json, key) == BodyMap(Trim(body))
  {
  }

  /** The layout saveState writes starts with the balances; reading the
      balances back from it gives the saved map. */
  lemma SavedBalancesReadBack(balances: seq<(string, int)>, rest: string)
    requires Storable(balances)
    ensures ReadIntMapSpec("{\n" + "\"balances\"" + ":" + JsonObject(balances) + rest, "\"balances\"")
            == ToMap(balances)
  {
    var head := "{\n" + "\"balances\"" + ":";
    var doc := head + JsonObject(balances) + rest;
    forall j: nat | 0 <= j < 2 ensures !OccursAt(doc, "\"balances\"", j) {
      assert doc[j..j + 10][0] == doc[j] != '"';
    }
    assert OccursAt(doc, "\"balances\"", 2) by {
      assert doc[2..12] == "\"balances\"";
    }
    IndexOfIs(doc, "\"balances\"", 0, 2);
    ReadBack(doc, head, "\"balances\"", 2, balances, rest);
  }
}
