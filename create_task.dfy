/** The new-task form: its initial state, when its submit button is enabled,
    and the arguments it hands to the board's add operation. */
module CreateTask {
  import opened Wrappers
  import opened TaskTypes
  import Strings
  import TaskOps

  /** The form's four inputs as typed. */
  datatype Form = Form(title: string, description: string, priority: Priority, deadline: string)

  /** The arguments of `onCreate`. */
  datatype Request = Request(title: string, description: string, priority: Priority, deadline: string)

  /** A freshly opened form: everything empty, priority medium. */
  const InitialForm: Form := Form("", "", Medium, "")

  /** The date part of an ISO timestamp: the text before the first 'T'. */
  function DatePart(iso: string): (r: string)
    ensures 'T' !in r && Strings.StartsWith(iso, r)
    ensures |r| < |iso| ==> iso[|r|] == 'T'
  {
    Strings.FirstSegment(iso, 'T')
  }

  /** For an ISO timestamp `date + "T" + time`, the date part is `date`. */
  lemma DatePartOfTimestamp(date: string, time: string)
    requires 'T' !in date
    ensures DatePart(date + "T" + time) == date
  {
    var s := date + "T" + time;
    var r := DatePart(s);
    assert s[|date|] == 'T';
  }

  /** The submit button is disabled while the trimmed title is empty. */
  predicate SubmitDisabled(f: Form) {
    Strings.Trim(f.title) == ""
  }

  /** Submitting: nothing when the trimmed title is empty; otherwise the
      trimmed title and description, the chosen priority, and the deadline or,
      when none was picked, today's date taken from `nowIso`. */
  function Submit(f: Form, nowIso: string): (r: Option<Request>)
    ensures r.None? <==> Strings.Trim(f.title) == ""
    ensures r.Some? ==> && r.value.title == Strings.Trim(f.title)
                        && r.value.description == Strings.Trim(f.description)
                        && r.value.priority == f.priority
    ensures r.Some? && f.deadline != "" ==> r.value.deadline == f.deadline
    ensures r.Some? && f.deadline == "" ==> r.value.deadline == DatePart(nowIso)
  {
    if Strings.Trim(f.title) == "" then None
    else Some(Request(Strings.Trim(f.title), Strings.Trim(f.description), f.priority,
                      if f.deadline != "" then f.deadline else DatePart(nowIso)))
  }

  /** The button is disabled exactly when submitting would do nothing; in
      particular a fresh form cannot be submitted. */
  lemma DisabledIffRejected(f: Form, nowIso: string)
    ensures SubmitDisabled(f) <==> Submit(f, nowIso).None?
    ensures SubmitDisabled(InitialForm)
  {
  }

  /** A submitted title is non-empty and already trimmed, and a title made only
      of white space is never submitted. */
  lemma SubmittedTitleIsClean(f: Form, nowIso: string)
    ensures Submit(f, nowIso).Some? ==>
      var t := Submit(f, nowIso).value.title; t != "" && Strings.Trim(t) == t
    ensures Strings.AllSpace(f.title) ==> Submit(f, nowIso).None?
  {
    Strings.TrimIdempotent(f.title);
    Strings.TrimEmptyIff(f.title);
  }

  /** The task a submitted form creates on the board has a non-empty,
      trimmed title and a deadline. */
  lemma CreatedTaskIsClean(ts: seq<Task>, f: Form, nowIso: string, id: string, entryId: string, now: string)
    requires Submit(f, nowIso).Some?
    requires f.deadline != "" || DatePart(nowIso) != ""
    ensures var q := Submit(f, nowIso).value;
      var t := TaskOps.AddTask(ts, id, entryId, q.title, q.description, q.priority, q.deadline, now)[|ts|];
      t.title != "" && Strings.Trim(t.title) == t.title && t.deadline != "" && t.status == Pending
  {
    SubmittedTitleIsClean(f, nowIso);
  }
}
