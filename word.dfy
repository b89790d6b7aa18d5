/**
 * The bridge's handle on Word: `WordAutomation` in main.cpp, with every COM
 * call made through the `Env` oracle. Each method's contract gives the exact
 * sequence of calls it makes (a pure function of what the calls answered) and
 * the new values of the `initialized` and `lastSavedState` fields.
 */
module Word {
  import opened Base
  import opened Host

  /* ---------- the path comparison of CheckPath ---------- */

  /** `::tolower` in the C locale: only `A`-`Z` change. */
  function Lower(c: char): char {
    if 'A' <= c <= 'Z' then (c as int + 32) as char else c
  }

  /** A path character after both passes of CheckPath: lowercased, then `/` made `\`. */
  function NormChar(c: char): char {
    var l := Lower(c);
    if l == '/' then '\\' else l
  }

  /** A whole path after both passes. */
  function NormPath(s: string): (r: string)
    ensures |r| == |s|
  {
    seq(|s|, i requires 0 <= i < |s| => NormChar(s[i]))
  }

  /** The verdict of CheckPath on a path it could read. */
  predicate PathsMatch(current: string, target: string) {
    NormPath(current) == NormPath(target)
  }

  /** Two paths match exactly when they have the same length and agree character by character after normalising. */
  lemma PathsMatchPointwise(a: string, b: string)
    ensures PathsMatch(a, b) <==> |a| == |b| && forall i :: 0 <= i < |a| ==> NormChar(a[i]) == NormChar(b[i])
  {
    if |a| == |b| && forall i :: 0 <= i < |a| ==> NormChar(a[i]) == NormChar(b[i]) {
      assert forall i :: 0 <= i < |a| ==> NormPath(a)[i] == NormPath(b)[i];
    }
    if PathsMatch(a, b) {
      forall i | 0 <= i < |a| ensures NormChar(a[i]) == NormChar(b[i]) {
        assert NormPath(a)[i] == NormPath(b)[i];
      }
    }
  }

  /** Normalising twice changes nothing more: a path matches its own normal form. */
  lemma NormIdempotent(s: string)
    ensures NormPath(NormPath(s)) == NormPath(s)
    ensures PathsMatch(s, NormPath(s))
  {
    forall i | 0 <= i < |s| ensures NormPath(NormPath(s))[i] == NormPath(s)[i] {
      var c := s[i];
      assert NormChar(NormChar(c)) == NormChar(c);
    }
  }

  /** The comparison ignores case and the kind of separator, and is an equivalence. */
  lemma PathsMatchEquivalence(a: string, b: string, c: string)
    ensures PathsMatch(a, a)
    ensures PathsMatch(a, b) ==> PathsMatch(b, a)
    ensures PathsMatch(a, b) && PathsMatch(b, c) ==> PathsMatch(a, c)
  {
  }

  /** Upper-case letters and forward slashes in either path do not matter. */
  lemma PathsMatchExample()
    ensures PathsMatch("C:/Docs/Report.DOCX", "c:\\docs\\report.docx")
    ensures !PathsMatch("C:/Docs/Report.docx", "C:/Docs/Report.doc")
  {
    var a, b := "C:/Docs/Report.DOCX", "c:\\docs\\report.docx";
    PathsMatchPointwise(a, b);
    assert |"C:/Docs/Report.docx"| != |"C:/Docs/Report.doc"|;
  }

  /** The two in-place passes of CheckPath: `transform(..., ::tolower)`, then `replace(..., '/', '\\')`. */
  method NormalizeInPlace(a: array<char>)
    modifies a
    ensures a[..] == NormPath(old(a[..]))
  {
    var i := 0;
    while i < a.Length
      invariant 0 <= i <= a.Length
      invariant forall k :: 0 <= k < i ==> a[k] == Lower(old(a[k]))
      invariant forall k :: i <= k < a.Length ==> a[k] == old(a[k])
    {
      a[i] := Lower(a[i]);
      i := i + 1;
    }
    i := 0;
    while i < a.Length
      invariant 0 <= i <= a.Length
      invariant forall k :: 0 <= k < i ==> a[k] == NormChar(old(a[k]))
      invariant forall k :: i <= k < a.Length ==> a[k] == Lower(old(a[k]))
    {
      if a[i] == '/' {
        a[i] := '\\';
      }
      i := i + 1;
    }
    assert forall k :: 0 <= k < a.Length ==> a[..][k] == NormPath(old(a[..]))[k];
  }

  /** A copy of the path, normalised the way CheckPath does it. */
  method Normalized(s: string) returns (r: string)
    ensures r == NormPath(s)
  {
    var a := new char[|s|](i requires 0 <= i < |s| => s[i]);
    assert a[..] == s;
    NormalizeInPlace(a);
    r := a[..];
  }

  /* ---------- the save detector of CheckSavedState ---------- */

  /**
   * A reading of `Document.Saved`: None when Word is not connected, there is
   * no active document, or the read fails.
   */
  type Reading = Option<bool>

  /** The detector fires on a saved reading that follows an unsaved one. */
  predicate Fires(last: bool, r: Reading) {
    !last && r == Some(true)
  }

  /** The stored reading after r: kept when r is None. */
  function Advance(last: bool, r: Reading): bool {
    if r.Some? then r.value else last
  }

  /** Whether each of a series of readings fires, the stored reading starting at `last`. */
  function Firings(last: bool, rs: seq<Reading>): (fs: seq<bool>)
    ensures |fs| == |rs|
    ensures rs != [] ==> fs[0] == Fires(last, rs[0])
    decreases |rs|
  {
    if rs == [] then [] else [Fires(last, rs[0])] + Firings(Advance(last, rs[0]), rs[1..])
  }

  /** The example series: it fires on the third and the sixth readings only. */
  lemma FiringsExample()
    ensures Firings(true, [Some(false), Some(false), Some(true), Some(true), Some(false), Some(true)])
            == [false, false, true, false, false, true]
  {
    var rs := [Some(false), Some(false), Some(true), Some(true), Some(false), Some(true)];
    assert rs[1..] == [Some(false), Some(true), Some(true), Some(false), Some(true)];
    assert rs[2..] == [Some(true), Some(true), Some(false), Some(true)];
    assert rs[3..] == [Some(true), Some(false), Some(true)];
    assert rs[4..] == [Some(false), Some(true)];
    assert rs[5..] == [Some(true)];
  }

  /** The stored reading starts at true, so a first reading of saved does not fire. */
  lemma FirstSavedReadingSilent(rs: seq<Reading>)
    requires rs != [] && rs[0] == Some(true)
    ensures !Firings(true, rs)[0]
  {
  }

  /**
   * Starting at true fires as starting at the first reading would: the first
   * reading itself never fires and only becomes the stored reading.
   */
  lemma FirstReadingOnlyStores(rs: seq<Reading>)
    requires rs != [] && rs[0].Some?
    ensures Firings(true, rs) == [false] + Firings(rs[0].value, rs[1..])
  {
  }

  /**
   * Firing at i means the stored reading was false, the reading is true, and
   * the latest earlier reading that was not None (if any) was false.
   */
  lemma {:induction false} FiringAt(last: bool, rs: seq<Reading>, i: nat)
    requires i < |rs|
    ensures Firings(last, rs)[i] <==> rs[i] == Some(true) && !Stored(last, rs[..i])
    decreases i
  {
    if i > 0 {
      FiringAt(Advance(last, rs[0]), rs[1..], i - 1);
      assert rs[1..][..i - 1] == rs[..i][1..];
    }
  }

  /** The stored reading after a series of readings. */
  function Stored(last: bool, rs: seq<Reading>): bool
    decreases |rs|
  {
    if rs == [] then last else Stored(Advance(last, rs[0]), rs[1..])
  }

  /** Between two firings there is a reading of false. */
  lemma NoDoubleFiring(last: bool, rs: seq<Reading>, i: nat, j: nat)
    requires i < j < |rs| && Firings(last, rs)[i] && Firings(last, rs)[j]
    ensures exists k :: i < k < j && rs[k] == Some(false)
  {
    FiringAt(last, rs, i);
    FiringAt(last, rs, j);
    StoredAfterTrue(last, rs[..j], i);
  }

  /**
   * After a reading of true at i, the stored reading stays true until a
   * reading of false comes.
   */
  lemma {:induction false} StoredAfterTrue(last: bool, rs: seq<Reading>, i: nat)
    requires i < |rs| && rs[i] == Some(true)
    ensures Stored(last, rs) || exists k :: i < k < |rs| && rs[k] == Some(false)
    decreases |rs|
  {
    var n := |rs| - 1;
    StoredSplit(last, rs[..n], rs[n]);
    assert rs == rs[..n] + [rs[n]];
    if n > i {
      StoredAfterTrue(last, rs[..n], i);
      if rs[n] == Some(false) {
      } else if !Stored(last, rs[..n]) {
        var k :| i < k < n && rs[..n][k] == Some(false);
        assert rs[k] == Some(false);
      }
    }
  }

  lemma {:induction false} StoredSplit(last: bool, rs: seq<Reading>, r: Reading)
    ensures Stored(last, rs + [r]) == Advance(Stored(last, rs), r)
    decreases |rs|
  {
    if rs != [] {
      assert (rs + [r])[1..] == rs[1..] + [r];
      StoredSplit(Advance(last, rs[0]), rs[1..], r);
    }
  }

  /* ---------- what the COM calls answered ---------- */

  /** What CheckSavedState and OnSaved were told: liveness probe, active document, Saved, FullName. */
  datatype SavedProbe = SavedProbe(alive: bool, doc: bool, saved: Option<bool>, path: Option<string>)

  /** What CheckPath was told. */
  datatype PathProbe = PathProbe(alive: bool, doc: bool, path: Option<string>)

  /** What SaveDocument was told. */
  datatype SaveProbe = SaveProbe(alive: bool, doc: bool, saved: bool)

  /** What ReplaceDocument was told: probe, temp directory, base64 decode, document, range, InsertFile. */
  datatype ReplaceProbe = ReplaceProbe(alive: bool, dir: string, decoded: bool, doc: bool,
                                       range: bool, inserted: bool)

  /** IsConnected's probe: made only when initialized. */
  function ProbeCalls(init: bool, alive: bool): seq<Call> {
    if init then [GetVersion(alive)] else []
  }

  /** The reading CheckSavedState takes. */
  function ReadingOf(init: bool, a: SavedProbe): Reading {
    if init && a.alive && a.doc then a.saved else None
  }

  /** The path OnSaved hands to the callback, if it is called and can read the path. */
  function Announced(last: bool, callback: bool, init: bool, a: SavedProbe): Option<string> {
    if Fires(last, ReadingOf(init, a)) && callback then a.path else None
  }

  function SavedStateCalls(init: bool, last: bool, callback: bool, a: SavedProbe): seq<Call> {
    ProbeCalls(init, a.alive)
    + if !(init && a.alive) then []
      else [GetActiveDocument(a.doc)]
           + if !a.doc then []
             else [GetSaved(a.saved)]
                  + if Fires(last, a.saved) && callback then [GetFullName(a.path)] else []
  }

  function CheckPathCalls(init: bool, a: PathProbe): seq<Call> {
    ProbeCalls(init, a.alive)
    + if !(init && a.alive) then [] else [GetActiveDocument(a.doc)] + if a.doc then [GetFullName(a.path)] else []
  }

  /** What CheckPath returns. */
  predicate PathOk(init: bool, a: PathProbe, target: string) {
    init && a.alive && a.doc && a.path.Some? && PathsMatch(a.path.value, target)
  }

  /** What SaveDocument returns. */
  predicate SavedOk(init: bool, a: SaveProbe) {
    init && a.alive && a.doc && a.saved
  }

  function SaveCalls(init: bool, a: SaveProbe): seq<Call> {
    ProbeCalls(init, a.alive)
    + if !(init && a.alive) then [] else [GetActiveDocument(a.doc)] + if a.doc then [SaveDoc(a.saved)] else []
  }

  /** The temporary file ReplaceDocument writes: its extension follows the content type. */
  function TempFile(dir: string, kind: string): string {
    dir + "word_plugin_temp" + (if kind == "html" then ".html" else if kind == "base64" then ".docx" else ".txt")
  }

  /** The calls that put the content into the temporary file: a base64 payload is decoded first. */
  function WriteCalls(content: string, kind: string, file: string, decoded: bool): seq<Call> {
    if kind == "base64" then [DecodeBase64(content, decoded)] + (if decoded then [WriteDecoded(file)] else [])
    else [WriteText(file, content)]
  }

  /** Everything before the document is touched: the probe, the temporary directory, the file. */
  function PrepareCalls(init: bool, content: string, kind: string, a: ReplaceProbe): seq<Call> {
    ProbeCalls(init, a.alive)
    + if init && a.alive then [GetTempDir(a.dir)] + WriteCalls(content, kind, TempFile(a.dir, kind), a.decoded) else []
  }

  /** Whether ReplaceDocument gets as far as the document: connected, and the file written. */
  predicate Prepared(init: bool, kind: string, a: ReplaceProbe) {
    init && a.alive && (kind != "base64" || a.decoded)
  }

  /** The swap itself: tracking off, accept what is pending, delete, insert the file, tracking off. */
  function SwapCalls(file: string, inserted: bool): seq<Call> {
    [SetTrackRevisions(false), AcceptAllRevisions, DeleteContent, InsertFile(file, inserted), SetTrackRevisions(false)]
  }

  /** The document calls once the file is written. */
  function DocumentCalls(file: string, doc: bool, range: bool, inserted: bool): seq<Call> {
    [GetActiveDocument(doc)]
    + if !doc then [] else [GetContent(range)] + if !range then [] else SwapCalls(file, inserted)
  }

  function ReplaceCalls(init: bool, content: string, kind: string, a: ReplaceProbe): seq<Call> {
    PrepareCalls(init, content, kind, a)
    + if Prepared(init, kind, a) then DocumentCalls(TempFile(a.dir, kind), a.doc, a.range, a.inserted) else []
  }

  /** What ReplaceDocument returns. */
  predicate Replaced(init: bool, kind: string, a: ReplaceProbe) {
    Prepared(init, kind, a) && a.doc && a.range && a.inserted
  }

  /** The temporary file's extension. */
  lemma TempFileNames(dir: string)
    ensures TempFile(dir, "html") == dir + "word_plugin_temp.html"
    ensures TempFile(dir, "base64") == dir + "word_plugin_temp.docx"
    ensures TempFile(dir, "text") == dir + "word_plugin_temp.txt"
  {
  }

  /** The preparation never touches the document. */
  lemma PrepareQuiet(init: bool, content: string, kind: string, a: ReplaceProbe)
    ensures forall c :: c in PrepareCalls(init, content, kind, a) ==>
              c.GetVersion? || c.GetTempDir? || c.DecodeBase64? || c.WriteDecoded? || c.WriteText?
  {
  }

  /** A base64 payload that does not decode leaves the document alone and fails. */
  lemma DecodeFailureUntouched(init: bool, content: string, a: ReplaceProbe)
    requires !a.decoded
    ensures !Replaced(init, "base64", a)
    ensures forall c :: c in ReplaceCalls(init, content, "base64", a) ==>
              c.GetVersion? || c.GetTempDir? || c.DecodeBase64?
  {
  }

  /**
   * A replace that deletes anything ends with the whole swap: revision
   * tracking is switched off before the delete and again, last of all, after
   * InsertFile, and nothing was deleted before.
   */
  lemma TrackingOffAroundInsert(init: bool, content: string, kind: string, a: ReplaceProbe)
    requires DeleteContent in ReplaceCalls(init, content, kind, a)
    ensures var cs := ReplaceCalls(init, content, kind, a);
            |cs| >= 5 && cs[|cs| - 5..] == SwapCalls(TempFile(a.dir, kind), a.inserted)
            && DeleteContent !in cs[..|cs| - 5]
  {
    DeleteNeedsDocument(init, content, kind, a);
    var pre := PrepareCalls(init, content, kind, a);
    var cs := ReplaceCalls(init, content, kind, a);
    var head := pre + [GetActiveDocument(true), GetContent(true)];
    assert cs == head + SwapCalls(TempFile(a.dir, kind), a.inserted);
    assert cs[..|cs| - 5] == head;
  }

  /** ReplaceDocument deletes only once the file is written and the document and its content are reached. */
  lemma DeleteNeedsDocument(init: bool, content: string, kind: string, a: ReplaceProbe)
    requires DeleteContent in ReplaceCalls(init, content, kind, a)
    ensures Prepared(init, kind, a) && a.doc && a.range && DeleteContent !in PrepareCalls(init, content, kind, a)
  {
    PrepareNoSwap(init, content, kind, a);
  }

  /** Before the document is reached, nothing is deleted and nothing inserted. */
  lemma PrepareNoSwap(init: bool, content: string, kind: string, a: ReplaceProbe)
    ensures DeleteContent !in PrepareCalls(init, content, kind, a)
    ensures InsertFile(TempFile(a.dir, kind), true) !in PrepareCalls(init, content, kind, a)
  {
    PrepareQuiet(init, content, kind, a);
  }

  /** ReplaceDocument succeeds exactly when it made a successful InsertFile of its temporary file. */
  lemma ReplacedIffInserted(init: bool, content: string, kind: string, a: ReplaceProbe)
    ensures Replaced(init, kind, a) <==> InsertFile(TempFile(a.dir, kind), true) in ReplaceCalls(init, content, kind, a)
  {
    PrepareNoSwap(init, content, kind, a);
  }

  /* ---------- the object ---------- */

  /** WordAutomation: the connection flag, the stored Saved reading and the save callback. */
  class WordAutomation {
    const env: Env
    var initialized: bool
    var lastSavedState: bool
    var hasCallback: bool

    constructor (env: Env)
      ensures this.env == env && !initialized && lastSavedState && !hasCallback
    {
      this.env := env;
      initialized := false;
      lastSavedState := true;
      hasCallback := false;
    }

    /** main.cpp assigns `onSaveCallback` before the main loop starts. */
    method SetCallback()
      modifies this`hasCallback
      ensures hasCallback
    {
      hasCallback := true;
    }

    /** The liveness probe: a failed Application.Version read drops the connection. */
    method IsConnected() returns (up: bool)
      modifies this`initialized, env`log
      ensures up == initialized && (up ==> old(initialized))
      ensures env.log == old(env.log) + ProbeCalls(old(initialized), up)
    {
      if !initialized {
        return false;
      }
      up := env.Version();
      if !up {
        initialized := false;
      }
    }

    /**
     * The save detector. `announce` is the path passed to the save callback,
     * if OnSaved called it.
     */
    method CheckSavedState() returns (announce: Option<string>, ghost a: SavedProbe)
      modifies this`initialized, this`lastSavedState, env`log
      ensures initialized == (old(initialized) && a.alive)
      ensures lastSavedState == Advance(old(lastSavedState), ReadingOf(old(initialized), a))
      ensures announce == Announced(old(lastSavedState), hasCallback, old(initialized), a)
      ensures env.log == old(env.log) + SavedStateCalls(old(initialized), old(lastSavedState), hasCallback, a)
    {
      var up := IsConnected();
      a := SavedProbe(up, false, None, None);
      announce := None;
      if !up {
        return;
      }
      var doc := env.ActiveDocument();
      a := a.(doc := doc);
      if !doc {
        return;
      }
      var saved := env.Saved();
      a := a.(saved := saved);
      if saved.Some? {
        if !lastSavedState && saved.value {
          var path;
          path := OnSaved();
          a := a.(path := path);
          announce := path;
        }
        lastSavedState := saved.value;
      }
    }

    /** OnSaved: reads FullName only when a callback is set; the callback gets the path if it could be read. */
    method OnSaved() returns (path: Option<string>)
      modifies env`log
      ensures hasCallback ==> env.log == old(env.log) + [GetFullName(path)]
      ensures !hasCallback ==> env.log == old(env.log) && path == None
    {
      path := None;
      if hasCallback {
        path := env.FullName();
      }
    }

    /** Connect: a no-op when initialized; otherwise attach to the running Word and take a first reading. */
    method Connect() returns (ok: bool, announce: Option<string>, ghost attached: bool, ghost a: SavedProbe)
      modifies this`initialized, this`lastSavedState, env`log
      ensures old(initialized) ==> ok && announce == None && initialized
                                   && lastSavedState == old(lastSavedState) && env.log == old(env.log)
      ensures !old(initialized) ==> ok == attached
      ensures !old(initialized) && !attached ==>
                !initialized && announce == None && lastSavedState == old(lastSavedState)
                && env.log == old(env.log) + [Attach(false)]
      ensures !old(initialized) && attached ==>
                initialized == a.alive
                && lastSavedState == Advance(old(lastSavedState), ReadingOf(true, a))
                && announce == Announced(old(lastSavedState), hasCallback, true, a)
                && env.log == old(env.log) + [Attach(true)] + SavedStateCalls(true, old(lastSavedState), hasCallback, a)
    {
      a := SavedProbe(false, false, None, None);
      attached := false;
      announce := None;
      if initialized {
        return true, None, attached, a;
      }
      var att := env.TryAttach();
      attached := att;
      if !att {
        return false, None, attached, a;
      }
      initialized := true;
      announce, a := CheckSavedState();
      ok := true;
    }

    /** CheckPath: false unless the active document's full name matches the target. */
    method CheckPath(target: string) returns (ok: bool, ghost a: PathProbe)
      modifies this`initialized, env`log
      ensures initialized == (old(initialized) && a.alive)
      ensures ok == PathOk(old(initialized), a, target)
      ensures env.log == old(env.log) + CheckPathCalls(old(initialized), a)
    {
      var up := IsConnected();
      a := PathProbe(up, false, None);
      if !up {
        return false, a;
      }
      var doc := env.ActiveDocument();
      a := a.(doc := doc);
      if !doc {
        return false, a;
      }
      var path := env.FullName();
      a := a.(path := path);
      if path.None? {
        return false, a;
      }
      var s1 := Normalized(path.value);
      var s2 := Normalized(target);
      ok := s1 == s2;
    }

    /** SaveDocument: Document.Save on the active document. */
    method SaveDocument() returns (ok: bool, ghost a: SaveProbe)
      modifies this`initialized, env`log
      ensures initialized == (old(initialized) && a.alive)
      ensures ok == SavedOk(old(initialized), a)
      ensures env.log == old(env.log) + SaveCalls(old(initialized), a)
    {
      var up := IsConnected();
      a := SaveProbe(up, false, false);
      if !up {
        return false, a;
      }
      var doc := env.ActiveDocument();
      a := a.(doc := doc);
      if !doc {
        return false, a;
      }
      ok := env.Save();
      a := a.(saved := ok);
    }

    /** ReplaceDocument: write the content to a temporary file and insert it in place of the document's content. */
    method ReplaceDocument(content: string, kind: string) returns (ok: bool, ghost a: ReplaceProbe)
      modifies this`initialized, env`log
      ensures initialized == (old(initialized) && a.alive)
      ensures ok == Replaced(old(initialized), kind, a)
      ensures env.log == old(env.log) + ReplaceCalls(old(initialized), content, kind, a)
    {
      ghost var init, log0 := initialized, env.log;
      var written, file;
      written, file, a := Prepare(content, kind);
      if !written {
        return false, a;
      }
      ghost var a0 := a;
      ghost var doc, range;
      ok, doc, range := SwapContent(file);
      a := a.(doc := doc, range := range, inserted := ok);
      assert PrepareCalls(init, content, kind, a) == PrepareCalls(init, content, kind, a0);
      Associative(log0, PrepareCalls(init, content, kind, a), DocumentCalls(file, doc, range, ok));
    }

    /** The first half of ReplaceDocument: check the connection, then write the temporary file. */
    method Prepare(content: string, kind: string) returns (written: bool, file: string, ghost a: ReplaceProbe)
      modifies this`initialized, env`log
      ensures initialized == (old(initialized) && a.alive)
      ensures written == Prepared(old(initialized), kind, a)
      ensures file == TempFile(a.dir, kind)
      ensures env.log == old(env.log) + PrepareCalls(old(initialized), content, kind, a)
    {
      var up := IsConnected();
      a := ReplaceProbe(up, "", false, false, false, false);
      if !up {
        return false, TempFile("", kind), a;
      }
      var dir := env.TempDir();
      file := TempFile(dir, kind);
      ghost var decoded;
      written, decoded := WriteTemp(content, kind, file);
      a := a.(dir := dir, decoded := decoded);
    }

    /** The payload written to the temporary file. */
    method WriteTemp(content: string, kind: string, file: string) returns (written: bool, ghost decoded: bool)
      modifies env`log
      ensures written == (kind != "base64" || decoded)
      ensures env.log == old(env.log) + WriteCalls(content, kind, file, decoded)
    {
      decoded := false;
      if kind == "base64" {
        written := env.Decode(content);
        decoded := written;
        if written {
          env.WriteBinary(file);
        }
      } else {
        env.Write(file, content);
        written := true;
      }
    }

    /** The second half of ReplaceDocument: the document's content replaced by the file, with revisions off. */
    method SwapContent(file: string) returns (ok: bool, ghost doc: bool, ghost range: bool)
      modifies env`log
      ensures ok ==> doc && range
      ensures env.log == old(env.log) + DocumentCalls(file, doc, range, ok)
    {
      var d := env.ActiveDocument();
      doc, range := d, false;
      if !d {
        return false, doc, range;
      }
      var r := env.Content();
      range := r;
      if !r {
        return false, doc, range;
      }
      env.TrackRevisions(false);
      env.AcceptRevisions();
      env.Delete();
      ok := env.Insert(file);
      env.TrackRevisions(false);
    }
  }
}
