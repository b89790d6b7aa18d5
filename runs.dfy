/**
 * `normalize_runs` in frontend/lib/diffscripts/Heidegger.py: the runs of a
 * paragraph are merged when their formatting is the same, and runs left with
 * no text are dropped. A run is a dictionary; the function extends the text
 * of the first run of each group in place, so the dictionaries it returns are
 * the caller's own.
 */
module Runs {
  import opened Base

  /** One formatting key of a run dictionary, every key but `text`. */
  datatype Key = Bold | Italic | Underline | FontName | FontSize | Color

  /** The keys, in the order get_run_style writes them. */
  const Keys: seq<Key> := [Bold, Italic, Underline, FontName, FontSize, Color]

  /**
   * What python-docx's `run.underline` gives besides None: True (single),
   * False (none), or a WD_UNDERLINE member, named here by its number, for
   * every other kind of line.
   */
  datatype UnderlineValue = Plain(on: bool) | Kind(member: int)

  /** The value under a formatting key: a flag, an underline, a name or a size, each possibly None. */
  datatype Value = Flag(b: Option<bool>) | Line(u: Option<UnderlineValue>) | Name(s: Option<string>) | Size(pt: Option<real>)

  /** The formatting of a run. */
  datatype Style = Style(bold: Option<bool>, italic: Option<bool>, underline: Option<UnderlineValue>,
                         fontName: Option<string>, fontSize: Option<real>, color: Option<string>)

  /** `run[key]`. */
  function Get(s: Style, k: Key): Value {
    match k
    case Bold => Flag(s.bold)
    case Italic => Flag(s.italic)
    case Underline => Line(s.underline)
    case FontName => Name(s.fontName)
    case FontSize => Size(s.fontSize)
    case Color => Name(s.color)
  }

  /** Two styles agree on every key exactly when they are the same style. */
  lemma KeysDecide(a: Style, b: Style)
    ensures (forall j :: 0 <= j < |Keys| ==> Get(a, Keys[j]) == Get(b, Keys[j])) <==> a == b
  {
    if forall j :: 0 <= j < |Keys| ==> Get(a, Keys[j]) == Get(b, Keys[j]) {
      assert Get(a, Keys[0]) == Get(b, Keys[0]) && Get(a, Keys[1]) == Get(b, Keys[1]);
      assert Get(a, Keys[2]) == Get(b, Keys[2]) && Get(a, Keys[3]) == Get(b, Keys[3]);
      assert Get(a, Keys[4]) == Get(b, Keys[4]) && Get(a, Keys[5]) == Get(b, Keys[5]);
    }
  }

  /** The inner loop of normalize_runs: compare every key but `text`, stopping at the first difference. */
  method SameStyle(run: Style, current: Style) returns (styleMatch: bool)
    ensures styleMatch <==> run == current
  {
    styleMatch := true;
    var j := 0;
    while j < |Keys|
      invariant 0 <= j <= |Keys|
      invariant styleMatch <==> forall m :: 0 <= m < j ==> Get(run, Keys[m]) == Get(current, Keys[m])
      invariant !styleMatch ==> j < |Keys|
      decreases |Keys| - j, styleMatch
    {
      if Get(run, Keys[j]) != Get(current, Keys[j]) {
        styleMatch := false;
        break;
      }
      j := j + 1;
    }
    KeysDecide(run, current);
  }

  /* ---------- the runs as values ---------- */

  /** A run's contents at one moment: its text and its formatting. */
  datatype Run = Run(text: string, style: Style)

  /** The text of a series of runs, joined. */
  function Text(rs: seq<Run>): string {
    if rs == [] then "" else rs[0].text + Text(rs[1..])
  }

  /**
   * The coalescing loop from a current run `cur`: each following run with
   * the same formatting is appended to it, and a run with other formatting
   * closes it and becomes the current one.
   */
  function CoalesceFrom(cur: Run, rest: seq<Run>): (rs: seq<Run>)
    ensures 1 <= |rs| <= 1 + |rest|
    ensures rs[0].style == cur.style
    decreases |rest|
  {
    if rest == [] then [cur]
    else if rest[0].style == cur.style then CoalesceFrom(Run(cur.text + rest[0].text, cur.style), rest[1..])
    else [cur] + CoalesceFrom(rest[0], rest[1..])
  }

  /** The list `normalized` before the filter. */
  function Coalesce(rs: seq<Run>): seq<Run> {
    if rs == [] then [] else CoalesceFrom(rs[0], rs[1..])
  }

  /** `[r for r in normalized if r['text']]`. */
  function NonEmpty(rs: seq<Run>): (kept: seq<Run>)
    ensures |kept| <= |rs|
    ensures forall i :: 0 <= i < |kept| ==> kept[i].text != ""
  {
    if rs == [] then [] else (if rs[0].text != "" then [rs[0]] else []) + NonEmpty(rs[1..])
  }

  /** What normalize_runs returns, as values. */
  function Normalize(rs: seq<Run>): seq<Run> {
    NonEmpty(Coalesce(rs))
  }

  /* ---------- what normalize_runs promises ---------- */

  /** No runs in, no runs out. */
  lemma NormalizeEmpty()
    ensures Normalize([]) == []
  {
  }

  /** Coalescing keeps the text, in order. */
  lemma {:induction false} CoalesceText(cur: Run, rest: seq<Run>)
    ensures Text(CoalesceFrom(cur, rest)) == cur.text + Text(rest)
    decreases |rest|
  {
    if rest != [] {
      if rest[0].style == cur.style {
        CoalesceText(Run(cur.text + rest[0].text, cur.style), rest[1..]);
      } else {
        CoalesceText(rest[0], rest[1..]);
        assert ([cur] + CoalesceFrom(rest[0], rest[1..]))[1..] == CoalesceFrom(rest[0], rest[1..]);
      }
    }
  }

  /** Dropping runs with no text keeps the text. */
  lemma {:induction false} NonEmptyText(rs: seq<Run>)
    ensures Text(NonEmpty(rs)) == Text(rs)
    decreases |rs|
  {
    if rs != [] {
      NonEmptyText(rs[1..]);
      var head := if rs[0].text != "" then [rs[0]] else [];
      TextAppend(head, NonEmpty(rs[1..]));
      if head != [] {
        assert head[1..] == [];
      }
    }
  }

  lemma {:induction false} TextAppend(a: seq<Run>, b: seq<Run>)
    ensures Text(a + b) == Text(a) + Text(b)
    decreases |a|
  {
    if a == [] {
      assert a + b == b;
    } else {
      assert (a + b)[1..] == a[1..] + b;
      TextAppend(a[1..], b);
    }
  }

  /** The text of the paragraph is the same before and after. */
  lemma NormalizeText(rs: seq<Run>)
    ensures Text(Normalize(rs)) == Text(rs)
  {
    NonEmptyText(Coalesce(rs));
    if rs != [] {
      CoalesceText(rs[0], rs[1..]);
    }
  }

  /** The result is never longer than the input, and no run in it is empty. */
  lemma NormalizeShape(rs: seq<Run>)
    ensures |Normalize(rs)| <= |rs|
    ensures forall i :: 0 <= i < |Normalize(rs)| ==> Normalize(rs)[i].text != ""
  {
  }

  /** Neighbouring runs differ in formatting. */
  predicate Separated(rs: seq<Run>) {
    forall i :: 0 <= i < |rs| - 1 ==> rs[i].style != rs[i + 1].style
  }

  /** Before the filter, neighbouring runs always differ in formatting. */
  lemma {:induction false} CoalesceSeparates(cur: Run, rest: seq<Run>)
    ensures Separated(CoalesceFrom(cur, rest))
    decreases |rest|
  {
    if rest != [] {
      if rest[0].style == cur.style {
        var merged := Run(cur.text + rest[0].text, cur.style);
        assert CoalesceFrom(cur, rest) == CoalesceFrom(merged, rest[1..]);
        CoalesceSeparates(merged, rest[1..]);
      } else {
        var tail := CoalesceFrom(rest[0], rest[1..]);
        var rs := [cur] + tail;
        assert CoalesceFrom(cur, rest) == rs;
        CoalesceSeparates(rest[0], rest[1..]);
        assert Separated(tail);
        forall i | 0 <= i < |rs| - 1
          ensures rs[i].style != rs[i + 1].style
        {
          if i > 0 {
            assert rs[i] == tail[i - 1] && rs[i + 1] == tail[i];
          } else {
            assert rs[1] == tail[0] && tail[0].style == rest[0].style;
          }
        }
      }
    }
  }

  /** A merged run has the formatting of the first run of its group and starts with that run's text. */
  lemma FirstRunKept(rs: seq<Run>)
    requires rs != []
    ensures Coalesce(rs)[0].style == rs[0].style && rs[0].text <= Coalesce(rs)[0].text
  {
    FirstTextKept(rs[0], rs[1..]);
  }

  lemma {:induction false} FirstTextKept(cur: Run, rest: seq<Run>)
    ensures cur.text <= CoalesceFrom(cur, rest)[0].text
    decreases |rest|
  {
    if rest != [] && rest[0].style == cur.style {
      var merged := Run(cur.text + rest[0].text, cur.style);
      FirstTextKept(merged, rest[1..]);
      assert cur.text <= merged.text;
    }
  }

  /**
   * The filter can leave two runs with the same formatting side by side: an
   * empty run between them kept them apart while merging.
   */
  lemma FilterMayJoinNeighbours(a: Style, b: Style)
    requires a != b
    ensures Normalize([Run("x", a), Run("", b), Run("y", a)]) == [Run("x", a), Run("y", a)]
    ensures Normalize(Normalize([Run("x", a), Run("", b), Run("y", a)])) == [Run("xy", a)]
  {
    var x, e, y := Run("x", a), Run("", b), Run("y", a);
    assert CoalesceFrom(y, []) == [y];
    assert CoalesceFrom(e, [y]) == [e] + [y] by {
      assert [y][1..] == [];
    }
    assert Coalesce([x, e, y]) == [x, e, y] by {
      assert [x, e, y][1..] == [e, y] && [e, y][1..] == [y];
      assert CoalesceFrom(x, [e, y]) == [x] + CoalesceFrom(e, [y]);
    }
    assert NonEmpty([y]) == [y] by {
      assert [y][1..] == [];
    }
    assert NonEmpty([x, e, y]) == [x, y] by {
      assert [x, e, y][1..] == [e, y] && [e, y][1..] == [y];
      assert NonEmpty([e, y]) == NonEmpty([y]);
    }
    assert Coalesce([x, y]) == [Run("xy", a)] by {
      assert [x, y][1..] == [y] && [y][1..] == [];
      assert "x" + "y" == "xy";
      assert CoalesceFrom(x, [y]) == CoalesceFrom(Run("xy", a), []);
    }
    assert NonEmpty([Run("xy", a)]) == [Run("xy", a)] by {
      assert [Run("xy", a)][1..] == [];
    }
  }

  /* ---------- the dictionaries ---------- */

  /** A run dictionary: the function changes only its `text`. */
  class RunDict {
    var text: string
    const style: Style

    constructor (text: string, style: Style)
      ensures this.text == text && this.style == style
    {
      this.text := text;
      this.style := style;
    }
  }

  /** The contents of a list of run dictionaries. */
  function Values(ds: seq<RunDict>): (vs: seq<Run>)
    reads ds
    ensures |vs| == |ds|
  {
    if ds == [] then [] else Values(ds[..|ds| - 1]) + [Run(ds[|ds| - 1].text, ds[|ds| - 1].style)]
  }

  /** Entry by entry, the contents are those of the dictionaries. */
  lemma {:induction false} ValuesAt(ds: seq<RunDict>, i: nat)
    requires i < |ds|
    ensures Values(ds)[i] == Run(ds[i].text, ds[i].style)
    decreases |ds|
  {
    if i < |ds| - 1 {
      ValuesAt(ds[..|ds| - 1], i);
    }
  }

  lemma ValuesIndex(ds: seq<RunDict>)
    ensures forall i :: 0 <= i < |ds| ==> Values(ds)[i] == Run(ds[i].text, ds[i].style)
  {
    forall i | 0 <= i < |ds| {
      ValuesAt(ds, i);
    }
  }

  /** The dictionaries `ds` hold the contents `vs`, entry by entry. */
  ghost predicate Holds(ds: seq<RunDict>, vs: seq<Run>)
    reads ds
  {
    |ds| == |vs| && forall j :: 0 <= j < |ds| ==> ds[j].text == vs[j].text && ds[j].style == vs[j].style
  }

  lemma HoldsValues(ds: seq<RunDict>, vs: seq<Run>)
    ensures Holds(ds, vs) <==> Values(ds) == vs
  {
    ValuesIndex(ds);
  }

  /** Filtering one more run. */
  lemma {:induction false} NonEmptySnoc(rs: seq<Run>, r: Run)
    ensures NonEmpty(rs + [r]) == NonEmpty(rs) + (if r.text != "" then [r] else [])
    decreases |rs|
  {
    if rs == [] {
      assert rs + [r] == [r] && [r][1..] == [];
    } else {
      var head := if rs[0].text != "" then [rs[0]] else [];
      var tail := if r.text != "" then [r] else [];
      assert (rs + [r])[0] == rs[0] && (rs + [r])[1..] == rs[1..] + [r];
      NonEmptySnoc(rs[1..], r);
      assert NonEmpty(rs + [r]) == head + (NonEmpty(rs[1..]) + tail);
      assert head + (NonEmpty(rs[1..]) + tail) == (head + NonEmpty(rs[1..])) + tail;
    }
  }

  /**
   * One pass of the merging loop over `run`, which sits at `i` in a list
   * whose contents on entry were `vs`: a run with the formatting of `current`
   * has its text appended to `current`'s, and any other run closes `current`
   * into `normalized` and takes its place. `done` is what `normalized` holds.
   */
  method Visit(normalized: seq<RunDict>, ghost done: seq<Run>, current: RunDict, run: RunDict,
               ghost vs: seq<Run>, ghost i: nat)
    returns (normalized': seq<RunDict>, ghost done': seq<Run>, current': RunDict)
    requires i < |vs| && vs[i] == Run(run.text, run.style)
    requires run != current && current !in normalized && Holds(normalized, done)
    requires Coalesce(vs) == done + CoalesceFrom(Run(current.text, current.style), vs[i..])
    modifies current
    ensures Holds(normalized', done')
    ensures Coalesce(vs) == done' + CoalesceFrom(Run(current'.text, current'.style), vs[i + 1..])
    ensures || (current' == current && normalized' == normalized && current.text == old(current.text) + run.text)
            || (current' == run && normalized' == normalized + [current] && current.text == old(current.text))
  {
    assert vs[i..][0] == vs[i] && vs[i..][1..] == vs[i + 1..];
    var styleMatch := SameStyle(run.style, current.style);
    if styleMatch {
      assert forall j :: 0 <= j < |normalized| ==> normalized[j] != current;
      current.text := current.text + run.text;
      normalized', done', current' := normalized, done, current;
    } else {
      normalized', done', current' := normalized + [current], done + [Run(current.text, current.style)], run;
    }
  }

  /**
   * Where the merging loop stands before the run at `i`: `vs` holds the
   * contents the caller's list had on entry, `current` is the dictionary at
   * `h`, and `normalized`, holding `done`, the dictionaries at `hs`, all
   * earlier. Only those have had their text changed, and no text has shrunk.
   * Where it is only handed on (the loop of Passes, Close) it is written
   * `Coalescing(...) == true`, so that it stays one fact instead of being
   * checked conjunct by conjunct.
   */
  ghost predicate Coalescing(runs: seq<RunDict>, vs: seq<Run>, i: nat, normalized: seq<RunDict>, done: seq<Run>,
                             current: RunDict?, hs: seq<nat>, h: nat)
    reads runs, normalized, current
  {
    && i <= |runs| == |vs| && h <= |runs| && |hs| == |normalized|
    && (current == null <==> i == 0)
    && (i == 0 ==> hs == [])
    && (i > 0 ==> h < i && current == runs[h])
    && (forall j :: 0 <= j < |hs| ==> hs[j] < h && normalized[j] == runs[hs[j]])
    && Holds(normalized, done)
    && (forall k :: 0 <= k < |runs| ==> vs[k].style == runs[k].style && |vs[k].text| <= |runs[k].text|)
    && (forall k :: 0 <= k < |runs| && (i == 0 || k != h) && k !in hs ==> runs[k].text == vs[k].text)
    && (current != null ==> Coalesce(vs) == done + CoalesceFrom(Run(current.text, current.style), vs[i..]))
  }

  /** Before the first pass. */
  lemma StartCoalescing(runs: seq<RunDict>, vs: seq<Run>)
    requires Holds(runs, vs)
    ensures Coalescing(runs, vs, 0, [], [], null, [], 0)
  {
  }

  /** One pass of the merging loop, over the run at `i`. */
  method Pass(runs: seq<RunDict>, ghost vs: seq<Run>, i: nat, normalized: seq<RunDict>, ghost done: seq<Run>,
              current: RunDict?, ghost hs: seq<nat>, ghost h: nat)
    returns (normalized': seq<RunDict>, ghost done': seq<Run>, current': RunDict?, ghost hs': seq<nat>, ghost h': nat)
    requires forall i, j :: 0 <= i < j < |runs| ==> runs[i] != runs[j]
    requires i < |runs| && Coalescing(runs, vs, i, normalized, done, current, hs, h) == true
    modifies runs
    ensures Coalescing(runs, vs, i + 1, normalized', done', current', hs', h')
  {
    var run := runs[i];
    assert run.text == vs[i].text;
    if current == null {
      normalized', done', current', hs', h' := normalized, done, run, hs, i;
      assert vs[1..] == vs[0..][1..];
    } else {
      assert i !in hs && vs[i] == Run(run.text, run.style);
      assert current !in normalized;
      normalized', done', current' := Visit(normalized, done, current, run, vs, i);
      if current' == run {
        hs', h' := hs + [h], i;
      } else {
        hs', h' := hs, h;
      }
    }
  }

  /** The `for run in runs` loop of normalize_runs. */
  method Passes(runs: seq<RunDict>, ghost vs: seq<Run>)
    returns (normalized: seq<RunDict>, ghost done: seq<Run>, current: RunDict?, ghost hs: seq<nat>, ghost h: nat)
    requires forall i, j :: 0 <= i < j < |runs| ==> runs[i] != runs[j]
    requires Holds(runs, vs)
    modifies runs
    ensures Coalescing(runs, vs, |runs|, normalized, done, current, hs, h) == true
  {
    StartCoalescing(runs, vs);
    normalized, done, current, hs, h := [], [], null, [], 0;
    for i := 0 to |runs|
      invariant Coalescing(runs, vs, i, normalized, done, current, hs, h) == true
    {
      normalized, done, current, hs, h := Pass(runs, vs, i, normalized, done, current, hs, h);
    }
  }

  /** `if current_run: normalized.append(current_run)`, after the last pass. */
  method Close(runs: seq<RunDict>, ghost vs: seq<Run>, normalized: seq<RunDict>, ghost done: seq<Run>,
               current: RunDict?, ghost hs: seq<nat>, ghost h: nat)
    returns (normalized': seq<RunDict>, ghost hs': seq<nat>)
    requires Coalescing(runs, vs, |runs|, normalized, done, current, hs, h) == true
    ensures Holds(normalized', Coalesce(vs))
    ensures |hs'| == |normalized'| && forall j :: 0 <= j < |hs'| ==> hs'[j] < |runs| && normalized'[j] == runs[hs'[j]]
    ensures forall k :: 0 <= k < |runs| && k !in hs' ==> runs[k].text == vs[k].text
    ensures forall k :: 0 <= k < |runs| ==> |vs[k].text| <= |runs[k].text|
  {
    normalized', hs' := normalized, hs;
    if current != null {
      normalized', hs' := normalized + [current], hs + [h];
      assert vs[|runs|..] == [];
    }
  }

  /**
   * The merging loop of normalize_runs, up to `normalized`. Each entry of
   * `normalized` is the dictionary at `hs[j]` in the caller's list, the first
   * of its group; a dictionary that heads no group keeps its text, and no
   * text gets shorter.
   */
  method CoalesceRuns(runs: seq<RunDict>) returns (normalized: seq<RunDict>, ghost hs: seq<nat>)
    requires forall i, j :: 0 <= i < j < |runs| ==> runs[i] != runs[j]
    modifies runs
    ensures Holds(normalized, Coalesce(old(Values(runs))))
    ensures |hs| == |normalized| && forall j :: 0 <= j < |hs| ==> hs[j] < |runs| && normalized[j] == runs[hs[j]]
    ensures forall k :: 0 <= k < |runs| && k !in hs ==> runs[k].text == old(Values(runs))[k].text
    ensures forall k :: 0 <= k < |runs| ==> |old(Values(runs))[k].text| <= |runs[k].text|
  {
    ghost var vs := Values(runs);
    HoldsValues(runs, vs);
    var current;
    ghost var done, h;
    normalized, done, current, hs, h := Passes(runs, vs);
    normalized, hs := Close(runs, vs, normalized, done, current, hs, h);
  }

  /** Filtering one more run keeps it exactly when it has text. */
  lemma KeepStep(vs: seq<Run>, j: nat)
    requires j < |vs|
    ensures NonEmpty(vs[..j + 1]) == NonEmpty(vs[..j]) + (if vs[j].text != "" then [vs[j]] else [])
  {
    assert vs[..j + 1] == vs[..j] + [vs[j]];
    NonEmptySnoc(vs[..j], vs[j]);
  }

  /** `[r for r in normalized if r['text']]`: the dictionaries with text, in order. */
  method KeepNonEmpty(normalized: seq<RunDict>, ghost vs: seq<Run>) returns (result: seq<RunDict>)
    requires Holds(normalized, vs)
    ensures Holds(result, NonEmpty(vs))
    ensures forall m :: 0 <= m < |result| ==> result[m] in normalized
    ensures forall m :: 0 <= m < |normalized| && normalized[m].text != "" ==> normalized[m] in result
  {
    result := [];
    for j := 0 to |normalized|
      invariant Keeping(normalized, vs, j, result) == true
    {
      result := KeepOne(normalized, vs, j, result);
    }
    assert vs[..|normalized|] == vs;
  }

  /**
   * Where the filter stands before the dictionary at `j`: `result` holds the
   * filtered contents of the first `j`, all of them taken from `normalized`,
   * and every one of the first `j` with text is in it. Handed on as
   * `Keeping(...) == true` for the same reason as Coalescing.
   */
  ghost predicate Keeping(normalized: seq<RunDict>, vs: seq<Run>, j: nat, result: seq<RunDict>)
    reads normalized, result
  {
    && j <= |vs| && Holds(result, NonEmpty(vs[..j]))
    && (forall m :: 0 <= m < |result| ==> result[m] in normalized)
    && (forall m :: 0 <= m < j && m < |normalized| && normalized[m].text != "" ==> normalized[m] in result)
  }

  /** One turn of the filter: the dictionary at `j` is kept when it has text. */
  method KeepOne(normalized: seq<RunDict>, ghost vs: seq<Run>, j: nat, result: seq<RunDict>)
    returns (result': seq<RunDict>)
    requires Holds(normalized, vs) && j < |normalized| && Keeping(normalized, vs, j, result) == true
    ensures Keeping(normalized, vs, j + 1, result')
  {
    KeepStep(vs, j);
    result' := result;
    if normalized[j].text != "" {
      result' := result + [normalized[j]];
    }
  }

  /**
   * normalize_runs. The caller's list holds distinct dictionaries (each comes
   * from its own get_run_style call). The result is the normalised runs, made
   * of the caller's own dictionaries, and every dictionary not returned keeps
   * its text.
   */
  method NormalizeRuns(runs: seq<RunDict>) returns (result: seq<RunDict>)
    requires forall i, j :: 0 <= i < j < |runs| ==> runs[i] != runs[j]
    modifies runs
    ensures Values(result) == Normalize(old(Values(runs)))
    ensures forall m :: 0 <= m < |result| ==> result[m] in runs
    ensures forall k :: 0 <= k < |runs| && runs[k] !in result ==> runs[k].text == old(runs[k].text)
  {
    if |runs| == 0 {
      return [];
    }
    ValuesIndex(runs);
    var normalized;
    ghost var hs;
    normalized, hs := CoalesceRuns(runs);
    result := KeepNonEmpty(normalized, Coalesce(old(Values(runs))));
    HoldsValues(result, Normalize(old(Values(runs))));
    forall m | 0 <= m < |result|
      ensures result[m] in runs
    {
      var j :| 0 <= j < |normalized| && normalized[j] == result[m];
      assert runs[hs[j]] == result[m];
    }
    forall k | 0 <= k < |runs| && runs[k] !in result
      ensures runs[k].text == old(runs[k].text)
    {
      if k in hs {
        var j :| 0 <= j < |hs| && hs[j] == k;
        assert normalized[j] == runs[k];
      }
    }
  }
}
