/**
 * The bridge's hand-written JSON reader and string escaper.
 *
 * The reader walks a cursor through a NUL-terminated C string. Here the text is a
 * `string` and the cursor an index into it; the character at index |t| is the
 * terminating NUL (see `At`), and an embedded NUL terminates the string the
 * same way. A read at an index beyond |t| is a read past the terminator: the
 * model reports it as `Overrun` instead of guessing what the memory holds.
 *
 * The pure functions below (`Skip`, `StringFrom`, `ValueAt`, ...) state what
 * each routine computes; the `JsonParser` class walks its cursor field exactly
 * as the source does and is proved to agree with them.
 */
module Json {

  /** A parsed value. A number keeps no value: only how far `strtod` moved the cursor matters. */
  datatype JsonValue =
    | JNull
    | JString(s: string)
    | JNumber
    | JBool(b: bool)
    | JObject(fields: map<string, JsonValue>)
    | JArray(items: seq<JsonValue>)

  /** What parsing from a cursor position leads to. */
  datatype Step =
    | Parsed(value: JsonValue, next: nat)  // the value and the cursor just after it
    | Overrun                               // the parser reads past the terminating NUL
    | Diverges                              // an array loop that stopped advancing: it never returns

  /**
   * `strtod` as far as the parser uses it: how many characters of the C string
   * it consumes. It never consumes more than the string holds; it may consume
   * none (a lone `-`).
   */
  type Scanner = f: string -> nat | forall s :: f(s) <= |s| witness (s: string) => 0

  const NUL: char := '\0'

  /** The character the cursor sees at index i: the terminator at i == |t|. */
  function At(t: string, i: nat): char
    requires i <= |t|
  {
    if i < |t| then t[i] else NUL
  }

  /** `isspace` in the C locale. */
  predicate IsSpace(c: char) {
    c == ' ' || c == '\t' || c == '\n' || c == '\U{0B}' || c == '\U{0C}' || c == '\r'
  }

  /** `isdigit`. */
  predicate IsDigit(c: char) {
    '0' <= c <= '9'
  }

  /** `strncmp(p, word, |word|) == 0`: the text at i starts with `word`. */
  predicate Lit(t: string, i: nat, word: string) {
    i + |word| <= |t| && t[i..i + |word|] == word
  }

  /** The C string that starts at i: the characters up to the first NUL. */
  function CString(t: string, i: nat): (s: string)
    requires i <= |t|
    ensures |s| <= |t| - i
    decreases |t| - i
  {
    if i == |t| || t[i] == NUL then [] else [t[i]] + CString(t, i + 1)
  }

  /** skipSpace: the first position at or after i that does not hold white space. */
  function Skip(t: string, i: nat): (j: nat)
    requires i <= |t|
    ensures i <= j <= |t|
    decreases |t| - i
  {
    if i < |t| && IsSpace(t[i]) then Skip(t, i + 1) else i
  }

  /**
   * skipSpace, an optional separator c, skipSpace: how both container loops step over
   * the `:` after a key and the `,` after a value.
   */
  function Sep(t: string, i: nat, c: char): (j: nat)
    requires i <= |t| && c != NUL
    ensures i <= j <= |t|
  {
    var k := Skip(t, i);
    Skip(t, if At(t, k) == c then k + 1 else k)
  }

  /** The character an escape sequence `\e` stands for (`"`, `\` and `/` stand for themselves). */
  function Unescape(e: char): char {
    if e == 'b' then '\U{08}'
    else if e == 'f' then '\U{0C}'
    else if e == 'n' then '\n'
    else if e == 'r' then '\r'
    else if e == 't' then '\t'
    else e
  }

  /**
   * The loop of parseString from cursor i, with `acc` decoded so far: it stops at
   * the closing quote (consumed) or at a NUL (not consumed). `\uXXXX` is dropped
   * without looking at its digits.
   */
  function StringFrom(t: string, i: nat, acc: string): (r: Step)
    ensures r.Parsed? || r.Overrun?
    ensures r.Parsed? ==> r.value.JString? && i <= r.next <= |t|
    decreases if i <= |t| then |t| + 1 - i else 0
  {
    if i > |t| then Overrun
    else
      var c := At(t, i);
      if c == NUL then Parsed(JString(acc), i)
      else if c == '"' then Parsed(JString(acc), i + 1)
      else if c == '\\' then
        var e := At(t, i + 1);
        if e == 'u' then StringFrom(t, i + 6, acc)
        else StringFrom(t, i + 2, acc + [Unescape(e)])
      else StringFrom(t, i + 1, acc + [c])
  }

  /** parseValue at cursor i. */
  function ValueAt(t: string, i: nat, scan: Scanner): (r: Step)
    requires i <= |t|
    ensures r.Parsed? ==> i <= r.next <= |t| + 1
    decreases |t| + 1 - i, 1
  {
    var j := Skip(t, i);
    var c := At(t, j);
    if c == '"' then StringFrom(t, j + 1, [])
    else if c == '{' then ObjectAt(t, j, scan)
    else if c == '[' then ArrayAt(t, j, scan)
    else if IsDigit(c) || c == '-' then Parsed(JNumber, j + scan(CString(t, j)))
    else if Lit(t, j, "true") then Parsed(JBool(true), j + 4)
    else if Lit(t, j, "false") then Parsed(JBool(false), j + 5)
    else if Lit(t, j, "null") then Parsed(JNull, j + 4)
    else Parsed(JNull, j + 1)
  }

  /** parseObject at the `{` at i. */
  function ObjectAt(t: string, i: nat, scan: Scanner): (r: Step)
    requires i < |t| && t[i] == '{'
    ensures r.Parsed? ==> i < r.next <= |t|
    decreases |t| + 1 - i, 0
  {
    MembersFrom(t, Skip(t, i + 1), map[], scan)
  }

  /** The member loop of parseObject from cursor j, with the members read so far. */
  function MembersFrom(t: string, j: nat, acc: map<string, JsonValue>, scan: Scanner): (r: Step)
    requires j <= |t|
    ensures r.Parsed? ==> j <= r.next <= |t|
    decreases |t| + 1 - j, 3
  {
    var c := At(t, j);
    if c == NUL then Parsed(JObject(acc), j)
    else if c == '}' then Parsed(JObject(acc), j + 1)
    else MemberAt(t, j, acc, scan)
  }

  /**
   * One turn of the member loop at j: the key is read as a string from just
   * after j (whatever character j holds), then the colon is stepped over.
   */
  function MemberAt(t: string, j: nat, acc: map<string, JsonValue>, scan: Scanner): (r: Step)
    requires j < |t|
    ensures r.Parsed? ==> j <= r.next <= |t|
    decreases |t| + 1 - j, 2
  {
    var key := StringFrom(t, j + 1, []);
    if key.Overrun? then Overrun
    else MemberValue(t, Sep(t, key.next, ':'), key.value.s, acc, scan)
  }

  /**
   * The rest of the turn: the value at q is read and stored under the key, the
   * comma is stepped over, and the loop goes on.
   */
  function MemberValue(t: string, q: nat, key: string, acc: map<string, JsonValue>, scan: Scanner): (r: Step)
    requires q <= |t|
    ensures r.Parsed? ==> q <= r.next <= |t|
    decreases |t| + 2 - q, 0
  {
    var v := ValueAt(t, q, scan);
    if !v.Parsed? then v
    else if v.next > |t| then Overrun
    else MembersFrom(t, Sep(t, v.next, ','), acc[key := v.value], scan)
  }

  /** parseArray at the `[` at i. */
  function ArrayAt(t: string, i: nat, scan: Scanner): (r: Step)
    requires i < |t| && t[i] == '['
    ensures r.Parsed? ==> i < r.next <= |t|
    decreases |t| + 1 - i, 0
  {
    ElementsFrom(t, Skip(t, i + 1), [], scan)
  }

  /**
   * The element loop of parseArray from cursor j. An iteration that ends where it
   * began leaves the parser in the state it started from, so the loop never ends.
   */
  function ElementsFrom(t: string, j: nat, acc: seq<JsonValue>, scan: Scanner): (r: Step)
    requires j <= |t|
    ensures r.Parsed? ==> j <= r.next <= |t|
    decreases |t| + 1 - j, 2
  {
    var c := At(t, j);
    if c == NUL then Parsed(JArray(acc), j)
    else if c == ']' then Parsed(JArray(acc), j + 1)
    else
      var v := ValueAt(t, j, scan);
      if !v.Parsed? then v
      else if v.next > |t| then Overrun
      else
        var m := Sep(t, v.next, ',');
        if m == j then Diverges
        else ElementsFrom(t, m, acc + [v.value], scan)
  }

  /** JsonParser::parse: skip leading white space, then read one value; the rest is ignored. */
  function Decode(t: string, scan: Scanner): Step {
    ValueAt(t, Skip(t, 0), scan)
  }

  /** The recursive-descent parser with its cursor `p` into `text`. */
  class JsonParser {
    const scan: Scanner
    var text: string
    var p: nat

    constructor (scan: Scanner)
      ensures this.scan == scan && text == [] && p == 0
    {
      this.scan := scan;
      text, p := [], 0;
    }

    method Parse(json: string) returns (r: Step)
      modifies this
      ensures text == json
      ensures r == Decode(json, scan)
    {
      text, p := json, 0;
      SkipSpace();
      r := ParseValue();
    }

    method SkipSpace()
      requires p <= |text|
      modifies this`p
      ensures p == Skip(text, old(p))
    {
      while p < |text| && IsSpace(text[p])
        invariant old(p) <= p <= |text|
        invariant Skip(text, p) == Skip(text, old(p))
        decreases |text| - p
      {
        p := p + 1;
      }
    }

    method ParseValue() returns (r: Step)
      requires p <= |text|
      modifies this`p
      ensures r == ValueAt(text, old(p), scan)
      ensures r.Parsed? ==> p == r.next
      decreases |text| + 1 - p, 1
    {
      SkipSpace();
      var c := At(text, p);
      if c == '"' {
        r := ParseString();
      } else if c == '{' {
        r := ParseObject();
      } else if c == '[' {
        r := ParseArray();
      } else if IsDigit(c) || c == '-' {
        r := ParseNumber();
      } else if Lit(text, p, "true") {
        p := p + 4;
        r := Parsed(JBool(true), p);
      } else if Lit(text, p, "false") {
        p := p + 5;
        r := Parsed(JBool(false), p);
      } else if Lit(text, p, "null") {
        p := p + 4;
        r := Parsed(JNull, p);
      } else {
        p := p + 1;
        r := Parsed(JNull, p);
      }
    }

    /** Called at the opening quote, or at whatever non-NUL character stands where a key should be. */
    method ParseString() returns (r: Step)
      requires p < |text|
      modifies this`p
      ensures r == StringFrom(text, old(p) + 1, [])
      ensures r.Parsed? ==> p == r.next
    {
      p := p + 1;
      var res: string := [];
      while true
        invariant StringFrom(text, p, res) == StringFrom(text, old(p) + 1, [])
        decreases if p <= |text| then |text| + 1 - p else 0
      {
        if p > |text| {
          return Overrun;
        }
        var c := At(text, p);
        if c == NUL || c == '"' {
          break;
        }
        if c == '\\' {
          p := p + 1;
          var e := At(text, p);
          if e == 'u' {
            p := p + 4;
          } else {
            res := res + [Unescape(e)];
          }
        } else {
          res := res + [c];
        }
        p := p + 1;
      }
      if At(text, p) == '"' {
        p := p + 1;
      }
      r := Parsed(JString(res), p);
    }

    method ParseNumber() returns (r: Step)
      requires p <= |text|
      modifies this`p
      ensures p == old(p) + scan(CString(text, old(p)))
      ensures r == Parsed(JNumber, p)
    {
      p := p + scan(CString(text, p));
      r := Parsed(JNumber, p);
    }

    /** skipSpace(); if (*p == c) p++; skipSpace(); */
    method SkipPast(c: char)
      requires p <= |text| && c != NUL
      modifies this`p
      ensures p == Sep(text, old(p), c)
    {
      SkipSpace();
      if At(text, p) == c {
        p := p + 1;
      }
      SkipSpace();
    }

    method ParseObject() returns (r: Step)
      requires p < |text| && text[p] == '{'
      modifies this`p
      ensures r == ObjectAt(text, old(p), scan)
      ensures r.Parsed? ==> p == r.next
      decreases |text| + 1 - p, 0
    {
      var fields: map<string, JsonValue> := map[];
      p := p + 1;
      SkipSpace();
      while At(text, p) != NUL && At(text, p) != '}'
        invariant old(p) < p <= |text|
        invariant MembersFrom(text, p, fields, scan) == ObjectAt(text, old(p), scan)
        decreases |text| - p
      {
        ghost var j := p;
        assert MembersFrom(text, j, fields, scan) == MemberAt(text, j, fields, scan);
        var key := ParseString();
        if key.Overrun? {
          return Overrun;
        }
        SkipPast(':');
        assert MemberAt(text, j, fields, scan) == MemberValue(text, p, key.value.s, fields, scan);
        ghost var q, before := p, fields;
        var v := ParseValue();
        if !v.Parsed? {
          return v;
        }
        if v.next > |text| {
          return Overrun;
        }
        fields := fields[key.value.s := v.value];
        SkipPast(',');
        assert MemberValue(text, q, key.value.s, before, scan) == MembersFrom(text, p, fields, scan);
      }
      if At(text, p) == '}' {
        p := p + 1;
      }
      r := Parsed(JObject(fields), p);
    }

    method ParseArray() returns (r: Step)
      requires p < |text| && text[p] == '['
      modifies this`p
      ensures r == ArrayAt(text, old(p), scan)
      ensures r.Parsed? ==> p == r.next
      decreases |text| + 1 - p, 0
    {
      var items: seq<JsonValue> := [];
      p := p + 1;
      SkipSpace();
      while At(text, p) != NUL && At(text, p) != ']'
        invariant old(p) < p <= |text|
        invariant ElementsFrom(text, p, items, scan) == ArrayAt(text, old(p), scan)
        decreases |text| - p
      {
        var start := p;
        var v := ParseValue();
        if !v.Parsed? {
          return v;
        }
        if v.next > |text| {
          return Overrun;
        }
        items := items + [v.value];
        SkipPast(',');
        if p == start {
          // Nothing moved: every later iteration repeats this one.
          return Diverges;
        }
      }
      if At(text, p) == ']' {
        p := p + 1;
      }
      r := Parsed(JArray(items), p);
    }
  }

  /** What escapeJson writes for one character. */
  function EscapeChar(c: char): string {
    if c == '"' then "\\\""
    else if c == '\\' then "\\\\"
    else if c == '\n' then "\\n"
    else if c == '\r' then "\\r"
    else if c == '\t' then "\\t"
    else [c]
  }

  /** escapeJson: each character replaced by its escape, in order. */
  function Escape(s: string): string {
    if s == [] then [] else EscapeChar(s[0]) + Escape(s[1..])
  }

  lemma {:induction false} EscapeAppend(a: string, b: string)
    ensures Escape(a + b) == Escape(a) + Escape(b)
  {
    if a == [] {
      assert a + b == b;
    } else {
      assert (a + b)[1..] == a[1..] + b;
      EscapeAppend(a[1..], b);
    }
  }

  method EscapeJson(s: string) returns (res: string)
    ensures res == Escape(s)
  {
    res := "";
    for i := 0 to |s|
      invariant res == Escape(s[..i])
    {
      var c := s[i];
      if c == '"' {
        res := res + "\\\"";
      } else if c == '\\' {
        res := res + "\\\\";
      } else if c == '\n' {
        res := res + "\\n";
      } else if c == '\r' {
        res := res + "\\r";
      } else if c == '\t' {
        res := res + "\\t";
      } else {
        res := res + [c];
      }
      assert s[..i + 1] == s[..i] + [c];
      EscapeAppend(s[..i], [c]);
    }
    assert s[..|s|] == s;
  }
}
