/**
 * What the JSON reader and the escaper promise about each other and about
 * awkward input: an escaped string reads back as itself, the escaper leaves
 * ordinary text alone, and the inputs on which the reader runs past the
 * terminator or never returns.
 */
module JsonProps {
  import opened Json

  /** No character of s is the NUL that would end the C string early. */
  predicate NulFree(s: string) {
    forall k :: 0 <= k < |s| ==> s[k] != NUL
  }

  /** The characters escapeJson rewrites. */
  predicate Special(c: char) {
    c == '"' || c == '\\' || c == '\n' || c == '\r' || c == '\t'
  }

  /** How many characters of s escapeJson rewrites. */
  function SpecialCount(s: string): nat {
    if s == [] then 0 else (if Special(s[0]) then 1 else 0) + SpecialCount(s[1..])
  }

  /**
   * The text t holds the word w at position i. Written recursively, so that
   * the verifier looks at one character at a time and only when asked.
   */
  predicate Holds(t: string, i: nat, w: string)
    decreases |w|
  {
    i + |w| <= |t| && (w != [] ==> t[i] == w[0] && Holds(t, i + 1, w[1..]))
  }

  lemma {:induction false} HoldsAt(t: string, i: nat, w: string, k: nat)
    requires Holds(t, i, w) && k < |w|
    ensures t[i + k] == w[k]
    decreases k
  {
    if k > 0 {
      HoldsAt(t, i + 1, w[1..], k - 1);
    }
  }

  lemma {:induction false} HoldsEvery(t: string, i: nat, w: string)
    requires i + |w| <= |t| && forall k :: 0 <= k < |w| ==> t[i + k] == w[k]
    ensures Holds(t, i, w)
    decreases |w|
  {
    if w != [] {
      assert t[i + 0] == w[0];
      forall k | 0 <= k < |w[1..]| ensures t[i + 1 + k] == w[1..][k] {
        assert t[i + (k + 1)] == w[k + 1];
      }
      HoldsEvery(t, i + 1, w[1..]);
    }
  }

  lemma {:induction false} HoldsSplit(t: string, i: nat, x: string, y: string)
    requires Holds(t, i, x + y)
    ensures Holds(t, i, x) && Holds(t, i + |x|, y)
    decreases |x|
  {
    if x == [] {
      assert x + y == y;
    } else {
      assert (x + y)[0] == x[0] && (x + y)[1..] == x[1..] + y;
      HoldsSplit(t, i + 1, x[1..], y);
    }
  }

  lemma {:induction false} HoldsJoin(t: string, i: nat, x: string, y: string)
    requires Holds(t, i, x) && Holds(t, i + |x|, y)
    ensures Holds(t, i, x + y)
    decreases |x|
  {
    if x == [] {
      assert x + y == y;
    } else {
      HoldsJoin(t, i + 1, x[1..], y);
      assert (x + y)[0] == x[0] && (x + y)[1..] == x[1..] + y;
    }
  }

  lemma HoldsMiddle(a: string, b: string, c: string)
    ensures Holds(a + b + c, |a|, b)
  {
    forall k | 0 <= k < |b| ensures (a + b + c)[|a| + k] == b[k] {
    }
    HoldsEvery(a + b + c, |a|, b);
  }

  /**
   * Round trip: parseString, started on the escaped form of a NUL-free string
   * followed by a closing quote, reads back exactly that string (appended to
   * what it had read so far) and stops just after the quote, whatever
   * precedes or follows.
   */
  lemma {:induction false} EscapeReadBack(t: string, i: nat, s: string, acc: string)
    requires NulFree(s) && Holds(t, i, Escape(s) + "\"")
    ensures StringFrom(t, i, acc) == Parsed(JString(acc + s), i + |Escape(s)| + 1)
    decreases |s|
  {
    if s == [] {
      assert Escape(s) + "\"" == "\"";
      HoldsAt(t, i, "\"", 0);
    } else {
      var c, e := s[0], EscapeChar(s[0]);
      assert Escape(s) + "\"" == e + (Escape(s[1..]) + "\"");
      HoldsSplit(t, i, e, Escape(s[1..]) + "\"");
      assert NulFree(s[1..]) by {
        forall k | 0 <= k < |s[1..]| ensures s[1..][k] != NUL {
          assert s[1..][k] == s[k + 1];
        }
      }
      EscapeReadBack(t, i + |e|, s[1..], acc + [c]);
      EscapeCharReadBack(t, i, c, acc);
      assert acc + [c] + s[1..] == acc + s;
    }
  }

  /** parseString reads the escape of one character back as that character. */
  lemma EscapeCharReadBack(t: string, i: nat, c: char, acc: string)
    requires c != NUL && Holds(t, i, EscapeChar(c)) && i + |EscapeChar(c)| <= |t|
    ensures StringFrom(t, i, acc) == StringFrom(t, i + |EscapeChar(c)|, acc + [c])
  {
    var e := EscapeChar(c);
    HoldsAt(t, i, e, 0);
    if Special(c) {
      HoldsAt(t, i, e, 1);
    }
  }

  /**
   * parse on a quoted escaped string gives back the string itself, whatever
   * strtod does, since a string never reaches it.
   */
  lemma QuotedReadBack(s: string, scan: Scanner)
    requires NulFree(s)
    ensures Decode("\"" + Escape(s) + "\"", scan) == Parsed(JString(s), |Escape(s)| + 2)
  {
    var t := "\"" + Escape(s) + "\"";
    QuotedStringFrom(s);
    assert Skip(t, 0) == 0;
    ValueAtQuote(t, 0, scan);
  }

  /** parseString, started after the opening quote, reads the escaped string back up to the closing one. */
  lemma QuotedStringFrom(s: string)
    requires NulFree(s)
    ensures var t := "\"" + Escape(s) + "\"";
            t[0] == '"' && StringFrom(t, 1, []) == Parsed(JString(s), |Escape(s)| + 2)
  {
    var t := "\"" + Escape(s) + "\"";
    assert t == "\"" + (Escape(s) + "\"") + "";
    HoldsMiddle("\"", Escape(s) + "\"", "");
    EscapeReadBack(t, 1, s, []);
  }

  /** escapeJson lengthens its input by one character per special character. */
  lemma {:induction false} EscapeLength(s: string)
    ensures |Escape(s)| == |s| + SpecialCount(s)
  {
    if s != [] {
      EscapeLength(s[1..]);
    }
  }

  /** escapeJson changes its input exactly when the input holds a special character. */
  lemma EscapeIdentity(s: string)
    ensures Escape(s) == s <==> forall k :: 0 <= k < |s| ==> !Special(s[k])
  {
    EscapeLength(s);
    if forall k :: 0 <= k < |s| ==> !Special(s[k]) {
      PlainUnchanged(s);
    } else {
      var k :| 0 <= k < |s| && Special(s[k]);
      SpecialCounted(s, k);
    }
  }

  lemma {:induction false} PlainUnchanged(s: string)
    requires forall k :: 0 <= k < |s| ==> !Special(s[k])
    ensures Escape(s) == s
  {
    if s != [] {
      assert !Special(s[0]);
      PlainUnchanged(s[1..]);
    }
  }

  lemma {:induction false} SpecialCounted(s: string, k: nat)
    requires k < |s| && Special(s[k])
    ensures SpecialCount(s) > 0
  {
    if k > 0 {
      SpecialCounted(s[1..], k - 1);
    }
  }

  /** escapeJson never emits a raw line feed, carriage return or tab. */
  lemma {:induction false} EscapeNoRawBreaks(s: string)
    ensures forall k :: 0 <= k < |Escape(s)| ==> Escape(s)[k] != '\n' && Escape(s)[k] != '\r' && Escape(s)[k] != '\t'
  {
    if s != [] {
      EscapeNoRawBreaks(s[1..]);
      var e := EscapeChar(s[0]);
      assert Escape(s) == e + Escape(s[1..]);
      forall k | 0 <= k < |Escape(s)|
        ensures Escape(s)[k] != '\n' && Escape(s)[k] != '\r' && Escape(s)[k] != '\t'
      {
        if k >= |e| {
          assert Escape(s)[k] == Escape(s[1..])[k - |e|];
        }
      }
    }
  }

  /** Every quote escapeJson emits comes right after a backslash, so none of them ends the string. */
  lemma {:induction false} EscapedQuotes(s: string)
    ensures forall k :: 0 <= k < |Escape(s)| && Escape(s)[k] == '"' ==> k > 0 && Escape(s)[k - 1] == '\\'
  {
    if s != [] {
      EscapedQuotes(s[1..]);
      var e, rest := EscapeChar(s[0]), Escape(s[1..]);
      assert Escape(s) == e + rest;
      forall k | 0 <= k < |Escape(s)| && Escape(s)[k] == '"'
        ensures k > 0 && Escape(s)[k - 1] == '\\'
      {
        if k >= |e| {
          assert rest[k - |e|] == '"';
          if k > |e| {
            assert Escape(s)[k - 1] == rest[k - |e| - 1];
          }
        }
      }
    }
  }

  /**
   * parseValue leaves the cursor where the value starts only on a number that
   * strtod does not accept; every other kind of value moves it forward.
   */
  lemma ValueStalls(t: string, i: nat, scan: Scanner)
    requires i <= |t|
    ensures var j, r := Skip(t, i), ValueAt(t, i, scan);
            r.Parsed? && r.next == j
            <==> (IsDigit(At(t, j)) || At(t, j) == '-') && scan(CString(t, j)) == 0
  {
  }

  /**
   * A character that starts no value is read as null and stepped over.
   */
  lemma UnknownSkipped(t: string, i: nat, scan: Scanner)
    requires i <= |t|
    requires var c := At(t, Skip(t, i));
             c != '"' && c != '{' && c != '[' && c != '-' && !IsDigit(c) && c != 't' && c != 'f' && c != 'n'
    ensures ValueAt(t, i, scan) == Parsed(JNull, Skip(t, i) + 1)
  {
    var j := Skip(t, i);
    LitFirst(t, j, "true");
    LitFirst(t, j, "false");
    LitFirst(t, j, "null");
  }

  /** A word found in the text starts with the word's first character. */
  lemma LitFirst(t: string, j: nat, w: string)
    requires j <= |t| && |w| > 0
    ensures Lit(t, j, w) ==> At(t, j) == w[0]
  {
    if Lit(t, j, w) {
      assert t[j..j + |w|][0] == t[j];
    }
  }

  /**
   * `[-]`: strtod takes nothing from "-]", the element loop ends each
   * iteration where it began, and the parser never returns.
   */
  lemma DashArrayDiverges(scan: Scanner)
    requires scan("-]") == 0
    ensures ArrayAt("[-]", 0, scan) == Diverges
  {
    var t := "[-]";
    assert Skip(t, 1) == 1;
    assert CString(t, 1) == "-]" by {
      assert CString(t, 3) == [];
      assert CString(t, 2) == "]";
    }
    assert ValueAt(t, 1, scan) == Parsed(JNumber, 1);
    assert Skip(t, 1) == 1 && At(t, 1) != ',';
  }

  /** A string whose last character is a backslash makes parseString read past the terminator. */
  lemma TrailingBackslashOverruns(s: string)
    requires forall k :: 0 <= k < |s| ==> s[k] != NUL && s[k] != '"' && s[k] != '\\'
    ensures StringFrom(s + "\\", 0, []) == Overrun
  {
    TrailingBackslashFrom(s, 0, []);
  }

  lemma {:induction false} TrailingBackslashFrom(s: string, i: nat, acc: string)
    requires i <= |s|
    requires forall k :: 0 <= k < |s| ==> s[k] != NUL && s[k] != '"' && s[k] != '\\'
    ensures StringFrom(s + "\\", i, acc) == Overrun
    decreases |s| - i
  {
    var t := s + "\\";
    if i < |s| {
      assert At(t, i) == s[i];
      TrailingBackslashFrom(s, i + 1, acc + [s[i]]);
    } else {
      assert At(t, i) == '\\' && At(t, i + 1) == NUL;
    }
  }

  /**
   * A `\u` escape with fewer than four characters after it makes parseString
   * jump past the terminator: it skips four characters and then one more
   * without looking at them.
   */
  lemma UEscapeOverruns(s: string, w: string)
    requires forall k :: 0 <= k < |s| ==> s[k] != NUL && s[k] != '"' && s[k] != '\\'
    requires |w| < 4
    ensures StringFrom(s + "\\u" + w, 0, []) == Overrun
  {
    UEscapeFrom(s, w, 0, []);
  }

  lemma {:induction false} UEscapeFrom(s: string, w: string, i: nat, acc: string)
    requires i <= |s| && |w| < 4
    requires forall k :: 0 <= k < |s| ==> s[k] != NUL && s[k] != '"' && s[k] != '\\'
    ensures StringFrom(s + "\\u" + w, i, acc) == Overrun
    decreases |s| - i
  {
    var t := s + "\\u" + w;
    assert t[..|s|] == s && t[|s|] == '\\' && t[|s| + 1] == 'u';
    if i < |s| {
      assert At(t, i) == s[i];
      UEscapeFrom(s, w, i + 1, acc + [s[i]]);
    } else {
      assert At(t, i) == '\\' && At(t, i + 1) == 'u';
    }
  }

  /** parseValue on a quote reads a string from the next character. */
  lemma ValueAtQuote(t: string, i: nat, scan: Scanner)
    requires i < |t| && t[i] == '"'
    ensures ValueAt(t, i, scan) == StringFrom(t, i + 1, [])
  {
    assert Skip(t, i) == i;
  }

  /** The member loop of parseObject on a quoted key: the key is read and the colon stepped over. */
  lemma KeyTurn(t: string, j: nat, acc: map<string, JsonValue>, scan: Scanner, k: string, c: nat)
    requires j < |t| && t[j] == '"'
    requires c <= |t| && StringFrom(t, j + 1, []) == Parsed(JString(k), c)
    ensures MembersFrom(t, j, acc, scan) == MemberValue(t, Sep(t, c, ':'), k, acc, scan)
  {
    assert MembersFrom(t, j, acc, scan) == MemberAt(t, j, acc, scan);
  }

  /** The rest of the turn on a quoted value: the member is stored and the loop goes on at m. */
  lemma ValueTurn(t: string, q: nat, k: string, acc: map<string, JsonValue>, scan: Scanner,
                  v: string, vn: nat, m: nat)
    requires q < |t| && t[q] == '"'
    requires vn <= |t| && StringFrom(t, q + 1, []) == Parsed(JString(v), vn)
    requires Sep(t, vn, ',') == m
    ensures MemberValue(t, q, k, acc, scan) == MembersFrom(t, m, acc[k := JString(v)], scan)
  {
    ValueAtQuote(t, q, scan);
  }

  /**
   * One turn of the member loop of parseObject on a quoted key, a colon and a
   * quoted value: the loop goes on at m with the member stored.
   */
  lemma MemberTurn(t: string, j: nat, acc: map<string, JsonValue>, scan: Scanner,
                   k: string, c: nat, v: string, vn: nat, m: nat)
    requires j < |t| && t[j] == '"'
    requires c + 1 < |t| && StringFrom(t, j + 1, []) == Parsed(JString(k), c)
    requires Sep(t, c, ':') == c + 1 && t[c + 1] == '"'
    requires vn <= |t| && StringFrom(t, c + 2, []) == Parsed(JString(v), vn)
    requires Sep(t, vn, ',') == m
    ensures MembersFrom(t, j, acc, scan) == MembersFrom(t, m, acc[k := JString(v)], scan)
  {
    KeyTurn(t, j, acc, scan, k, c);
    assert MembersFrom(t, j, acc, scan) == MemberValue(t, c + 1, k, acc, scan);
    ValueTurn(t, c + 1, k, acc, scan, v, vn, m);
  }

  /** The member loop of parseObject stops on a closing brace and consumes it. */
  lemma MembersClose(t: string, j: nat, acc: map<string, JsonValue>, scan: Scanner)
    requires j < |t| && t[j] == '}'
    ensures MembersFrom(t, j, acc, scan) == Parsed(JObject(acc), j + 1)
  {
  }

  /** parse on text that opens with `{` directly followed by a non-blank runs the member loop from 1. */
  lemma DecodeObject(t: string, scan: Scanner)
    requires |t| >= 2 && t[0] == '{' && !IsSpace(t[1])
    ensures Decode(t, scan) == MembersFrom(t, 1, map[], scan)
  {
    assert Skip(t, 0) == 0 && Skip(t, 1) == 1;
    assert ValueAt(t, 0, scan) == ObjectAt(t, 0, scan);
  }
}
