/**
 * The messages the bridge sends to the server, written out as JSON text the
 * way main.cpp concatenates them, and what the bridge's own reader makes of
 * that text.
 *
 * Only the saved event's path goes through escapeJson; a response carries the
 * command's id verbatim, so the read-back of a response holds only for ids
 * without a quote, a backslash, a control character escapeJson would rewrite,
 * or a NUL.
 */
module Protocol {
  import opened Json
  import opened JsonProps

  /** The three messages main.cpp sends. */
  datatype Outbound =
    | Response(id: string, ok: bool)   // the outcome of a save or a replace
    | PathMismatch(id: string)         // a replace refused by the path check
    | SavedEvent(path: string)         // the document was saved in Word

  function Status(ok: bool): string {
    if ok then "success" else "error"
  }

  /** `"w"`, with w written as given. */
  function Quoted(w: string): string {
    "\"" + w + "\""
  }

  /** `"k":"v"`, with k and v written as given. */
  function Pair(k: string, v: string): string {
    Quoted(k) + (":" + Quoted(v))
  }

  /** Members separated by commas, keys and values written as given. */
  function Members(fs: seq<(string, string)>): string
    decreases |fs|
  {
    if fs == [] then ""
    else Pair(fs[0].0, fs[0].1) + (if |fs| == 1 then "" else "," + Members(fs[1..]))
  }

  /** A flat object of string members, written without white space. */
  function ObjectText(fs: seq<(string, string)>): string {
    "{" + Members(fs) + "}"
  }

  /**
   * The text of each message: the same characters main.cpp concatenates,
   * with the id written verbatim and the path through escapeJson.
   */
  function Render(m: Outbound): string {
    match m
    case Response(id, ok) =>
      ObjectText([("type", "response"), ("id", id), ("status", Status(ok))])
    case PathMismatch(id) =>
      ObjectText([("type", "response"), ("id", id), ("status", "error"), ("message", "Document path mismatch")])
    case SavedEvent(path) =>
      ObjectText([("type", "event"), ("event", "saved"), ("path", Escape(path))])
  }

  /** The written pair p is the pair d escaped, and d holds no NUL. */
  predicate EscapedPair(p: (string, string), d: (string, string)) {
    NulFree(d.0) && NulFree(d.1) && p.0 == Escape(d.0) && p.1 == Escape(d.1)
  }

  /** The written pairs fs are the pairs ds escaped one by one. */
  predicate Escapes(fs: seq<(string, string)>, ds: seq<(string, string)>)
    decreases |ds|
  {
    |fs| == |ds| && (ds != [] ==> EscapedPair(fs[0], ds[0]) && Escapes(fs[1..], ds[1..]))
  }

  /** The map parseObject builds from the members, a later key overriding an earlier one. */
  function FieldsOf(acc: map<string, JsonValue>, ds: seq<(string, string)>): map<string, JsonValue>
    decreases |ds|
  {
    if ds == [] then acc else FieldsOf(acc[ds[0].0 := JString(ds[0].1)], ds[1..])
  }

  /** Sep steps over the separator c at i when no white space surrounds it. */
  lemma SepOver(t: string, i: nat, c: char)
    requires i + 1 < |t| && t[i] == c && c != NUL && !IsSpace(c) && !IsSpace(t[i + 1])
    ensures Sep(t, i, c) == i + 1
  {
  }

  /** Sep stays at i when neither white space nor c is there. */
  lemma SepStays(t: string, i: nat, c: char)
    requires i < |t| && t[i] != c && c != NUL && !IsSpace(t[i])
    ensures Sep(t, i, c) == i
  {
  }

  /** parseString reads a quoted escaped string back from just after its opening quote. */
  lemma QuotedAt(t: string, q: nat, s: string)
    requires NulFree(s) && Holds(t, q, Quoted(Escape(s)))
    ensures t[q] == '"' && StringFrom(t, q + 1, []) == Parsed(JString(s), q + |Escape(s)| + 2)
  {
    var e := Escape(s);
    assert Quoted(e) == "\"" + (e + "\"");
    HoldsSplit(t, q, "\"", e + "\"");
    HoldsAt(t, q, "\"", 0);
    EscapeReadBack(t, q + 1, s, []);
    assert [] + s == s;
  }

  /** Where the pieces of an escaped member sit, and what parseString makes of them. */
  lemma PairLayout(t: string, i: nat, p: (string, string), d: (string, string))
    requires EscapedPair(p, d) && Holds(t, i, Pair(p.0, p.1))
    ensures var c, n := i + |p.0| + 2, i + |Pair(p.0, p.1)|;
            i < |t| && t[i] == '"' && c + 1 < |t|
            && StringFrom(t, i + 1, []) == Parsed(JString(d.0), c)
            && Sep(t, c, ':') == c + 1 && t[c + 1] == '"'
            && n <= |t| && StringFrom(t, c + 2, []) == Parsed(JString(d.1), n)
  {
    var c := i + |p.0| + 2;
    HoldsSplit(t, i, Quoted(p.0), ":" + Quoted(p.1));
    HoldsSplit(t, c, ":", Quoted(p.1));
    HoldsAt(t, c, ":", 0);
    QuotedAt(t, i, d.0);
    QuotedAt(t, c + 1, d.1);
    SepOver(t, c, ':');
  }

  /** One member followed by a comma: the loop goes on after the comma with the member stored. */
  lemma MemberThen(t: string, i: nat, p: (string, string), d: (string, string),
                   acc: map<string, JsonValue>, scan: Scanner)
    requires EscapedPair(p, d) && Holds(t, i, Pair(p.0, p.1))
    requires var n := i + |Pair(p.0, p.1)|;
             n + 1 < |t| && t[n] == ',' && t[n + 1] == '"'
    ensures MembersFrom(t, i, acc, scan)
            == MembersFrom(t, i + |Pair(p.0, p.1)| + 1, acc[d.0 := JString(d.1)], scan)
  {
    PairLayout(t, i, p, d);
    MemberStep(t, i, i + |p.0| + 2, i + |Pair(p.0, p.1)|, acc, scan, d.0, d.1);
  }

  /** A member laid out from `i` as PairLayout finds it, then a comma and the next key's quote. */
  lemma MemberStep(t: string, i: nat, c: nat, n: nat, acc: map<string, JsonValue>, scan: Scanner, k: string, v: string)
    requires i < |t| && t[i] == '"' && c + 1 < |t|
             && StringFrom(t, i + 1, []) == Parsed(JString(k), c)
             && Sep(t, c, ':') == c + 1 && t[c + 1] == '"'
             && n <= |t| && StringFrom(t, c + 2, []) == Parsed(JString(v), n)
    requires n + 1 < |t| && t[n] == ',' && t[n + 1] == '"'
    ensures MembersFrom(t, i, acc, scan) == MembersFrom(t, n + 1, acc[k := JString(v)], scan)
  {
    SepOver(t, n, ',');
    MemberTurn(t, i, acc, scan, k, c, v, n, n + 1);
  }

  /** The last member, followed by the closing brace: the loop stops after the brace. */
  lemma MemberLast(t: string, i: nat, p: (string, string), d: (string, string),
                   acc: map<string, JsonValue>, scan: Scanner)
    requires EscapedPair(p, d) && Holds(t, i, Pair(p.0, p.1))
    requires var n := i + |Pair(p.0, p.1)|;
             n < |t| && t[n] == '}'
    ensures MembersFrom(t, i, acc, scan)
            == Parsed(JObject(acc[d.0 := JString(d.1)]), i + |Pair(p.0, p.1)| + 1)
  {
    PairLayout(t, i, p, d);
    LastStep(t, i, i + |p.0| + 2, i + |Pair(p.0, p.1)|, acc, scan, d.0, d.1);
  }

  /** A member laid out from `i` as PairLayout finds it, then the closing brace. */
  lemma LastStep(t: string, i: nat, c: nat, n: nat, acc: map<string, JsonValue>, scan: Scanner, k: string, v: string)
    requires i < |t| && t[i] == '"' && c + 1 < |t|
             && StringFrom(t, i + 1, []) == Parsed(JString(k), c)
             && Sep(t, c, ':') == c + 1 && t[c + 1] == '"'
             && n <= |t| && StringFrom(t, c + 2, []) == Parsed(JString(v), n)
    requires n < |t| && t[n] == '}'
    ensures MembersFrom(t, i, acc, scan) == Parsed(JObject(acc[k := JString(v)]), n + 1)
  {
    SepStays(t, n, ',');
    MembersClose(t, n, acc[k := JString(v)], scan);
    MemberTurn(t, i, acc, scan, k, c, v, n, n);
  }

  /** A written pair starts with the quote of its key. */
  lemma PairOpens(t: string, i: nat, k: string, v: string)
    requires Holds(t, i, Pair(k, v))
    ensures t[i] == '"'
  {
    HoldsAt(t, i, Pair(k, v), 0);
  }

  /**
   * The members fs are laid out in t from i, each followed by a comma or, for
   * the last, by the closing brace.
   */
  predicate Laid(t: string, i: nat, fs: seq<(string, string)>)
    decreases |fs|
  {
    if fs == [] then i < |t| && t[i] == '}'
    else
      var n := i + |Pair(fs[0].0, fs[0].1)|;
      Holds(t, i, Pair(fs[0].0, fs[0].1)) && n < |t|
      && if |fs| == 1 then t[n] == '}' else t[n] == ',' && Laid(t, n + 1, fs[1..])
  }

  /** The text of the members and the closing brace is laid out member by member. */
  lemma {:induction false} MembersLaid(t: string, i: nat, fs: seq<(string, string)>)
    requires Holds(t, i, Members(fs) + "}")
    ensures Laid(t, i, fs)
    decreases |fs|
  {
    if fs == [] {
      assert Members(fs) + "}" == "}";
      HoldsAt(t, i, "}", 0);
    } else {
      var p := Pair(fs[0].0, fs[0].1);
      if |fs| == 1 {
        assert Members(fs) + "}" == p + "}";
        HoldsSplit(t, i, p, "}");
        HoldsAt(t, i + |p|, "}", 0);
      } else {
        var more := Members(fs[1..]) + "}";
        assert Members(fs) + "}" == p + ("," + more);
        HoldsSplit(t, i, p, "," + more);
        HoldsSplit(t, i + |p|, ",", more);
        HoldsAt(t, i + |p|, ",", 0);
        MembersLaid(t, i + |p| + 1, fs[1..]);
      }
    }
  }

  /** Where the member loop of parseObject stops on laid-out members: just after the brace. */
  function LaidEnd(i: nat, fs: seq<(string, string)>): nat
    decreases |fs|
  {
    if fs == [] then i + 1
    else if |fs| == 1 then i + |Pair(fs[0].0, fs[0].1)| + 1
    else LaidEnd(i + |Pair(fs[0].0, fs[0].1)| + 1, fs[1..])
  }

  lemma {:induction false} LaidEndLength(i: nat, fs: seq<(string, string)>)
    ensures LaidEnd(i, fs) == i + |Members(fs)| + 1
    decreases |fs|
  {
    if |fs| > 1 {
      LaidEndLength(i + |Pair(fs[0].0, fs[0].1)| + 1, fs[1..]);
    }
  }

  /**
   * The member loop of parseObject reads back every member of a flat object
   * whose keys and values were escaped, and stops just after the closing brace.
   */
  lemma {:induction false} MembersReadBack(t: string, i: nat, fs: seq<(string, string)>,
                                           ds: seq<(string, string)>,
                                           acc: map<string, JsonValue>, scan: Scanner)
    requires Escapes(fs, ds) && Laid(t, i, fs)
    ensures MembersFrom(t, i, acc, scan) == Parsed(JObject(FieldsOf(acc, ds)), LaidEnd(i, fs))
    decreases |ds|
  {
    if ds == [] {
      MembersClose(t, i, acc, scan);
    } else {
      var acc' := acc[ds[0].0 := JString(ds[0].1)];
      var n := i + |Pair(fs[0].0, fs[0].1)|;
      if |ds| == 1 {
        MemberLast(t, i, fs[0], ds[0], acc, scan);
      } else {
        PairOpens(t, n + 1, fs[1].0, fs[1].1);
        MembersReadBack(t, n + 1, fs[1..], ds[1..], acc', scan);
        MemberThen(t, i, fs[0], ds[0], acc, scan);
      }
    }
  }

  /** The text of a flat object: an opening brace, then the members laid out up to the end. */
  lemma ObjectLaid(fs: seq<(string, string)>)
    ensures var t := ObjectText(fs);
            |t| >= 2 && t[0] == '{' && !IsSpace(t[1]) && Laid(t, 1, fs) && LaidEnd(1, fs) == |t|
  {
    var m := Members(fs);
    var t := ObjectText(fs);
    assert t == "{" + (m + "}") + "";
    HoldsMiddle("{", m + "}", "");
    assert |t| == |m| + 2;
    MembersLaid(t, 1, fs);
    if fs == [] {
      assert t[1] == '}';
    } else {
      PairOpens(t, 1, fs[0].0, fs[0].1);
    }
    LaidEndLength(1, fs);
  }

  /** A flat object of escaped NUL-free strings decodes to exactly its members. */
  lemma ObjectReadBack(fs: seq<(string, string)>, ds: seq<(string, string)>, scan: Scanner)
    requires Escapes(fs, ds)
    ensures var t := ObjectText(fs);
            Decode(t, scan) == Parsed(JObject(FieldsOf(map[], ds)), |t|)
  {
    var t := ObjectText(fs);
    ObjectLaid(fs);
    MembersReadBack(t, 1, fs, ds, map[], scan);
    DecodeObject(t, scan);
  }

  /** Text escapeJson leaves alone and that holds no NUL. */
  predicate Plain(w: string) {
    forall k :: 0 <= k < |w| ==> !Special(w[k]) && w[k] != NUL
  }

  lemma PlainWord(w: string)
    requires Plain(w)
    ensures Escape(w) == w && NulFree(w)
  {
    PlainUnchanged(w);
  }

  /** The words main.cpp writes around the id and the path. */
  lemma PlainWords()
    ensures Plain("type") && Plain("event") && Plain("saved") && Plain("path") && Plain("response")
    ensures Plain("id") && Plain("status") && Plain("success") && Plain("error") && Plain("message")
  {
  }

  lemma PlainMessage()
    ensures Plain("Document path mismatch")
  {
  }

  lemma EscapesCons(p: (string, string), d: (string, string),
                    fs: seq<(string, string)>, ds: seq<(string, string)>)
    requires EscapedPair(p, d) && Escapes(fs, ds)
    ensures Escapes([p] + fs, [d] + ds)
  {
    assert ([p] + fs)[1..] == fs && ([d] + ds)[1..] == ds;
  }

  lemma FieldsOfCons(acc: map<string, JsonValue>, d: (string, string), ds: seq<(string, string)>)
    ensures FieldsOf(acc, [d] + ds) == FieldsOf(acc[d.0 := JString(d.1)], ds)
  {
    assert ([d] + ds)[1..] == ds;
  }

  /** Two members written without escapes read back as the two pairs. */
  lemma TwoReadBack(d1: (string, string), d2: (string, string), scan: Scanner)
    requires Plain(d1.0) && Plain(d1.1) && Plain(d2.0) && Plain(d2.1)
    ensures var r := Decode(ObjectText([d1, d2]), scan);
            r.Parsed? && r.value == JObject(map[d1.0 := JString(d1.1), d2.0 := JString(d2.1)])
  {
    PlainWord(d1.0);
    PlainWord(d1.1);
    PlainWord(d2.0);
    PlainWord(d2.1);
    EscapesCons(d2, d2, [], []);
    EscapesCons(d1, d1, [d2], [d2]);
    assert [d1] + [d2] == [d1, d2];
    FieldsOfCons(map[], d1, [d2]);
    FieldsOfCons(map[][d1.0 := JString(d1.1)], d2, []);
    ObjectReadBack([d1, d2], [d1, d2], scan);
  }

  /** Three members, the last possibly escaped, read back as the three pairs. */
  lemma ThreeReadBack(d1: (string, string), d2: (string, string), d3: (string, string),
                      p3: (string, string), scan: Scanner)
    requires Plain(d1.0) && Plain(d1.1) && Plain(d2.0) && Plain(d2.1) && EscapedPair(p3, d3)
    ensures var r := Decode(ObjectText([d1, d2, p3]), scan);
            r.Parsed? && r.value == JObject(map[d1.0 := JString(d1.1), d2.0 := JString(d2.1),
                                                 d3.0 := JString(d3.1)])
  {
    PlainWord(d1.0);
    PlainWord(d1.1);
    PlainWord(d2.0);
    PlainWord(d2.1);
    EscapesCons(p3, d3, [], []);
    EscapesCons(d2, d2, [p3], [d3]);
    EscapesCons(d1, d1, [d2, p3], [d2, d3]);
    assert [d1] + ([d2] + [p3]) == [d1, d2, p3];
    FieldsOfCons(map[], d1, [d2, d3]);
    FieldsOfCons(map[][d1.0 := JString(d1.1)], d2, [d3]);
    FieldsOfCons(map[][d1.0 := JString(d1.1)][d2.0 := JString(d2.1)], d3, []);
    ObjectReadBack([d1, d2, p3], [d1, d2, d3], scan);
  }

  /**
   * The saved event read back by the bridge's own reader gives the path that
   * was escaped into it.
   */
  lemma SavedEventReadBack(path: string, scan: Scanner)
    requires NulFree(path)
    ensures var r := Decode(Render(SavedEvent(path)), scan);
            r.Parsed? && r.value == JObject(map["type" := JString("event"), "event" := JString("saved"),
                                                 "path" := JString(path)])
  {
    PlainWords();
    PlainWord("path");
    ThreeReadBack(("type", "event"), ("event", "saved"), ("path", path), ("path", Escape(path)), scan);
  }

  /** A response whose id escapeJson would leave alone reads back with that id and its status. */
  lemma ResponseReadBack(id: string, ok: bool, scan: Scanner)
    requires Plain(id)
    ensures var r := Decode(Render(Response(id, ok)), scan);
            r.Parsed? && r.value == JObject(map["type" := JString("response"), "id" := JString(id),
                                                 "status" := JString(Status(ok))])
  {
    PlainWords();
    PlainWord("status");
    PlainWord(Status(ok));
    ThreeReadBack(("type", "response"), ("id", id), ("status", Status(ok)), ("status", Status(ok)), scan);
  }

  /** Four members written without escapes read back as the four pairs. */
  lemma FourReadBack(d1: (string, string), d2: (string, string), d3: (string, string),
                     d4: (string, string), scan: Scanner)
    requires Plain(d1.0) && Plain(d1.1) && Plain(d2.0) && Plain(d2.1)
    requires Plain(d3.0) && Plain(d3.1) && Plain(d4.0) && Plain(d4.1)
    ensures var r := Decode(ObjectText([d1, d2, d3, d4]), scan);
            r.Parsed? && r.value == JObject(map[d1.0 := JString(d1.1), d2.0 := JString(d2.1),
                                                 d3.0 := JString(d3.1), d4.0 := JString(d4.1)])
  {
    PlainWord(d1.0);
    PlainWord(d1.1);
    PlainWord(d2.0);
    PlainWord(d2.1);
    PlainWord(d3.0);
    PlainWord(d3.1);
    PlainWord(d4.0);
    PlainWord(d4.1);
    var ds := [d1, d2, d3, d4];
    EscapesCons(d4, d4, [], []);
    EscapesCons(d3, d3, [d4], [d4]);
    EscapesCons(d2, d2, [d3, d4], [d3, d4]);
    EscapesCons(d1, d1, [d2, d3, d4], [d2, d3, d4]);
    assert [d1] + [d2, d3, d4] == ds;
    FieldsOfCons(map[], d1, [d2, d3, d4]);
    FieldsOfCons(map[][d1.0 := JString(d1.1)], d2, [d3, d4]);
    FieldsOfCons(map[][d1.0 := JString(d1.1)][d2.0 := JString(d2.1)], d3, [d4]);
    FieldsOfCons(map[][d1.0 := JString(d1.1)][d2.0 := JString(d2.1)][d3.0 := JString(d3.1)], d4, []);
    ObjectReadBack(ds, ds, scan);
  }

  /** The refusal of a replace reads back as an error carrying the mismatch message. */
  lemma PathMismatchReadBack(id: string, scan: Scanner)
    requires Plain(id)
    ensures var r := Decode(Render(PathMismatch(id)), scan);
            r.Parsed? && r.value == JObject(map["type" := JString("response"), "id" := JString(id),
                                                 "status" := JString("error"),
                                                 "message" := JString("Document path mismatch")])
  {
    PlainWords();
    PlainMessage();
    FourReadBack(("type", "response"), ("id", id), ("status", "error"), ("message", "Document path mismatch"), scan);
  }
}
