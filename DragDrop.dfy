/** `DragDropPayload`: the `task:<UUID>` strings a dragged task card carries. */
module DragDrop {
  import opened Wrappers
  import opened Text
  import opened Uuid

  const TaskPrefix: string := "task:"

  /** `taskId(from:)`: the UUID after a `task:` prefix, or `None`. */
  function TaskId(s: string): (r: Option<Uuid>)
    ensures !HasPrefix(s, TaskPrefix) ==> r.None?
  {
    if !HasPrefix(s, TaskPrefix) then None else Parse(s[5..])
  }

  /** The payload a task card puts on the pasteboard: `task:` followed by the task id's text form. */
  function Payload(u: Uuid): (s: string)
    ensures HasPrefix(s, TaskPrefix) && |s| == |TaskPrefix| + 36
  {
    TaskPrefix + Format(u)
  }

  /** A card's payload reads back as the card's task id. */
  lemma TaskIdPayload(u: Uuid)
    ensures TaskId(Payload(u)) == Some(u)
  {
    assert Payload(u)[5..] == Format(u);
    ParseFormat(u);
  }

  /** Only the text after the prefix matters: two payloads with the same suffix give the same result. */
  lemma TaskIdSuffixOnly(suffix: string)
    ensures TaskId(TaskPrefix + suffix) == Parse(suffix)
  {
    assert (TaskPrefix + suffix)[5..] == suffix;
  }

  /** Without the prefix even a well-formed UUID is refused. */
  lemma TaskIdNeedsPrefix(u: Uuid)
    ensures TaskId(Format(u)) == None
  {
    assert Format(u)[0] != 't';
  }

  /** A string that is not a UUID after the prefix gives `None`. */
  lemma TaskIdRejectsNonUuid()
    ensures TaskId("task:not-a-uuid") == None
  {
    assert "task:not-a-uuid"[5..] == "not-a-uuid";
    assert |"not-a-uuid"| != 36;
  }
}
