/**
 * The commands the bridge takes from the server: how the receive loop of
 * main.cpp turns a parsed message into a `Task`, and the FIFO queue the
 * receive loop pushes onto and the main loop drains.
 */
module Tasks {
  import opened Base
  import opened Json

  /** One queued command. `kind` is the payload's `type` field. */
  datatype Task = Task(action: string, id: string, content: string, kind: string, checkPath: string)

  /**
   * `v.o_val[k]`: the member k of an object. The C++ map's `operator[]`
   * yields a default value (null, empty string) for a missing key, and every
   * value that is not an object has an empty `o_val`.
   */
  function Member(v: JsonValue, k: string): (r: JsonValue)
    ensures v.JObject? && k in v.fields ==> r == v.fields[k]
    ensures !(v.JObject? && k in v.fields) ==> r == JNull
  {
    if v.JObject? && k in v.fields then v.fields[k] else JNull
  }

  /** `v.o_val.count(k) != 0`. */
  predicate Has(v: JsonValue, k: string) {
    v.JObject? && k in v.fields
  }

  /** `v.s_val`: the text of a string value, empty for every other kind of value. */
  function Str(v: JsonValue): string {
    if v.JString? then v.s else ""
  }

  /** The `checkPath` option of a payload, or "" when there is none. */
  function CheckPathOf(payload: JsonValue): (r: string)
    ensures r != "" ==> Has(payload, "options") && Has(payload.fields["options"], "checkPath")
    ensures Has(payload, "options") && Has(payload.fields["options"], "checkPath") ==>
              r == Str(payload.fields["options"].fields["checkPath"])
    ensures r == Str(Member(Member(payload, "options"), "checkPath"))
  {
    if Has(payload, "options") && Has(payload.fields["options"], "checkPath")
    then Str(payload.fields["options"].fields["checkPath"])
    else ""
  }

  /**
   * The task a parsed message becomes, or None when it is dropped: a message
   * that is not an object, or whose `action` is missing, empty or not a string,
   * is dropped. Missing fields read as "". `content`, `type` and `checkPath`
   * are read only for `replace`.
   */
  function ToTask(data: JsonValue): (r: Option<Task>)
    ensures r.None? <==> !data.JObject? || Str(Member(data, "action")) == ""
    ensures r.Some? ==> r.value.action == Str(Member(data, "action")) && r.value.action != ""
    ensures r.Some? ==> r.value.id == Str(Member(data, "id"))
    ensures r.Some? && !Has(data, "id") ==> r.value.id == ""
    ensures r.Some? && r.value.action != "replace" ==>
              r.value.content == "" && r.value.kind == "" && r.value.checkPath == ""
    ensures r.Some? && r.value.action == "replace" ==>
              r.value.content == Str(Member(Member(data, "payload"), "content"))
              && r.value.kind == Str(Member(Member(data, "payload"), "type"))
              && r.value.checkPath == Str(Member(Member(Member(data, "payload"), "options"), "checkPath"))
    ensures r.Some? && r.value.checkPath != "" ==>
              var payload := Member(data, "payload");
              r.value.action == "replace" && Has(payload, "options")
              && Has(payload.fields["options"], "checkPath")
              && payload.fields["options"].fields["checkPath"] == JString(r.value.checkPath)
  {
    if !data.JObject? then None
    else
      var action := Str(Member(data, "action"));
      var id := Str(Member(data, "id"));
      var payload := Member(data, "payload");
      var replace := action == "replace";
      var content := if replace then Str(Member(payload, "content")) else "";
      var kind := if replace then Str(Member(payload, "type")) else "";
      var checkPath := if replace then CheckPathOf(payload) else "";
      if action == "" then None else Some(Task(action, id, content, kind, checkPath))
  }

  /** The global `taskQueue`: the receive loop pushes at the back, the main loop pops at the front. */
  class TaskQueue {
    var items: seq<Task>

    constructor ()
      ensures items == []
    {
      items := [];
    }

    function IsEmpty(): (r: bool)
      reads this
      ensures r <==> |items| == 0
    {
      items == []
    }

    method Push(t: Task)
      modifies this
      ensures items == old(items) + [t]
    {
      items := items + [t];
    }

    /** `front()` followed by `pop()`. */
    method Pop() returns (t: Task)
      requires items != []
      modifies this
      ensures [t] + items == old(items)
    {
      t := items[0];
      items := items[1..];
    }
  }
}
