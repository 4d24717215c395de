/**
 * The new-bill submission handler as a state machine over its five fields,
 * with the store's replies given as inputs and every observable effect
 * (store calls, navigation, alerts, error logging, the file input's marker)
 * recorded, in order, in a trace.
 */
module NewBillSpec {
  import opened Wrappers
  import opened ImageExtension
  import opened BillRecord

  datatype File = File(name: string, content: seq<bv8>)

  /** The multipart payload staged for upload: the file under "file", the session email under "email". */
  datatype Payload = Payload(file: File, email: string)

  datatype Route = Bills

  datatype Effect =
    | ClearFileInput                          // the file input's value is emptied
    | MarkFileInput(invalid: bool)            // the input is styled as invalid, or as accepted
    | Alert(message: string)
    | Create(data: Option<Payload>)           // the upload call to the store
    | Update(bill: Bill, selector: Option<string>)
    | Navigate(route: Route)
    | LogError(error: string)

  const FormatAlert: string :=
    "Le format de votre fichier n'est pas pris en charge.\nSeuls les .jpg, .jpeg, .png sont acceptés."

  datatype CreateReply = CreateOk(fileUrl: string, key: string) | CreateErr(error: string)
  datatype UpdateReply = UpdateOk | UpdateErr(error: string)

  /** The handler's fields; None stands for null or undefined. */
  datatype HandlerState = HandlerState(
    fileUrl: Option<string>,
    fileName: Option<string>,
    billId: Option<string>,
    isImgFormatValid: bool,
    formData: Option<Payload>)

  /**
   * A fresh handler. The constructor sets a field of another name, so the
   * flag the handlers read starts undefined, which is falsy.
   */
  const Initial: HandlerState := HandlerState(None, None, None, false, None)

  datatype Step = Step(next: HandlerState, effects: seq<Effect>)

  function Alerts(effects: seq<Effect>): nat {
    if effects == [] then 0 else (if effects[0].Alert? then 1 else 0) + Alerts(effects[1..])
  }

  /** Choosing a file: stage it when its name is accepted, otherwise reject it and keep what was staged. */
  function SelectFile(s: HandlerState, file: File, email: string): (r: Step)
    ensures r.next.isImgFormatValid == IsImageName(file.name)
    ensures r.next.fileUrl == s.fileUrl && r.next.billId == s.billId
    ensures IsImageName(file.name) ==>
              r.next.fileName == Some(file.name) && r.next.formData == Some(Payload(file, email)) &&
              Alerts(r.effects) == 0 && ClearFileInput !in r.effects
    ensures !IsImageName(file.name) ==>
              r.next.fileName == s.fileName && r.next.formData == s.formData &&
              Alerts(r.effects) == 1 && ClearFileInput in r.effects
  {
    if IsImageName(file.name) then
      Step(s.(isImgFormatValid := true, formData := Some(Payload(file, email)), fileName := Some(file.name)),
           [MarkFileInput(false)])
    else
      Step(s.(isImgFormatValid := false), [ClearFileInput, MarkFileInput(true), Alert(FormatAlert)])
  }

  /** What an update call does now (`issued`) and once the store has answered (`settled`). */
  datatype Dispatch = Dispatch(issued: seq<Effect>, settled: seq<Effect>)

  /** Sending the record to the store's update, keyed by the bill id, when there is a store. */
  function DispatchUpdate(hasStore: bool, billId: Option<string>, bill: Bill, reply: UpdateReply): (d: Dispatch)
    ensures !hasStore ==> d.issued == [] && d.settled == []
    ensures hasStore ==> d.issued == [Update(bill, billId)] && |d.settled| == 1
    ensures hasStore ==> (d.settled[0] == Navigate(Bills) <==> reply.UpdateOk?)
    ensures hasStore && reply.UpdateErr? ==> d.settled[0] == LogError(reply.error)
  {
    if !hasStore then Dispatch([], [])
    else
      match reply
      case UpdateOk => Dispatch([Update(bill, billId)], [Navigate(Bills)])
      case UpdateErr(e) => Dispatch([Update(bill, billId)], [LogError(e)])
  }

  /**
   * Submitting the form, with a store present. The record is built first,
   * from the fields as they are; only with the flag set does anything happen:
   * the upload, then (on success) the new id and file reference, the update,
   * and navigation, which does not wait for the update to settle.
   */
  function SubmitBill(s: HandlerState, form: FormFields, email: string, created: CreateReply, updated: UpdateReply): (r: Step)
    ensures !s.isImgFormatValid ==> r.next == s && r.effects == []
    ensures s.isImgFormatValid ==> r.effects != [] && r.effects[0] == Create(s.formData)
    ensures created.CreateErr? && s.isImgFormatValid ==> r.next == s && r.effects == [Create(s.formData), LogError(created.error)]
    ensures created.CreateOk? && s.isImgFormatValid ==>
              r.next == s.(billId := Some(created.key), fileUrl := Some(created.fileUrl)) &&
              |r.effects| == 4 &&
              r.effects[1] == Update(BuildBill(form, email, s.fileUrl, s.fileName), Some(created.key)) &&
              r.effects[2] == Navigate(Bills) &&
              (r.effects[3] == Navigate(Bills) <==> updated.UpdateOk?)
    ensures created.CreateOk? && s.isImgFormatValid && updated.UpdateErr? ==> r.effects[3] == LogError(updated.error)
  {
    var bill := BuildBill(form, email, s.fileUrl, s.fileName);
    if !s.isImgFormatValid then Step(s, [])
    else
      match created
      case CreateErr(e) => Step(s, [Create(s.formData), LogError(e)])
      case CreateOk(url, key) =>
        var next := s.(billId := Some(key), fileUrl := Some(url));
        var d := DispatchUpdate(true, next.billId, bill, updated);
        Step(next, [Create(s.formData)] + d.issued + [Navigate(Bills)] + d.settled)
  }

  // ---------------------------------------------------------------------
  // The handler's invariant: a staged name always comes with its payload,
  // both belong to an accepted file, and the flag is only up with a file staged.

  ghost predicate Consistent(s: HandlerState) {
    && (s.fileName.Some? <==> s.formData.Some?)
    && (s.formData.Some? ==> s.fileName == Some(s.formData.value.file.name) && IsImageName(s.formData.value.file.name))
    && (s.isImgFormatValid ==> s.formData.Some?)
  }

  lemma InitialConsistent()
    ensures Consistent(Initial)
  {
  }

  lemma SelectFilePreserves(s: HandlerState, file: File, email: string)
    requires Consistent(s)
    ensures Consistent(SelectFile(s, file, email).next)
  {
  }

  lemma SubmitBillPreserves(s: HandlerState, form: FormFields, email: string, created: CreateReply, updated: UpdateReply)
    requires Consistent(s)
    ensures Consistent(SubmitBill(s, form, email, created, updated).next)
  {
  }

  // ---------------------------------------------------------------------
  // Runs: any sequence of file selections and submits.

  datatype Event =
    | ChangeFile(file: File, email: string)
    | Submit(form: FormFields, submitEmail: string, created: CreateReply, updated: UpdateReply)

  function Apply(s: HandlerState, e: Event): Step {
    match e
    case ChangeFile(file, email) => SelectFile(s, file, email)
    case Submit(form, email, created, updated) => SubmitBill(s, form, email, created, updated)
  }

  /** The state after the events, one after the other, and all their effects in order. */
  function Run(s: HandlerState, events: seq<Event>): Step {
    if events == [] then Step(s, [])
    else
      var before := Run(s, events[..|events| - 1]);
      var last := Apply(before.next, events[|events| - 1]);
      Step(last.next, before.effects + last.effects)
  }

  /** An effect that sends data to the store only ever carries a file of an accepted format. */
  ghost predicate OnlyAcceptedFiles(e: Effect) {
    && (e.Create? ==> e.data.Some? && IsImageName(e.data.value.file.name))
    && (e.Update? ==> e.bill.fileName.Some? && IsImageName(e.bill.fileName.value))
  }

  lemma ApplySafe(s: HandlerState, e: Event)
    requires Consistent(s)
    ensures Consistent(Apply(s, e).next)
    ensures forall i :: 0 <= i < |Apply(s, e).effects| ==> OnlyAcceptedFiles(Apply(s, e).effects[i])
  {
  }

  /**
   * From any consistent state, in particular a fresh handler, no sequence of
   * selections and submits ever uploads or records a file whose name was
   * rejected, and the invariant holds throughout.
   */
  lemma {:induction false} RunUploadsOnlyAcceptedFiles(s: HandlerState, events: seq<Event>)
    requires Consistent(s)
    ensures Consistent(Run(s, events).next)
    ensures forall i :: 0 <= i < |Run(s, events).effects| ==> OnlyAcceptedFiles(Run(s, events).effects[i])
  {
    if events != [] {
      var before := Run(s, events[..|events| - 1]);
      RunUploadsOnlyAcceptedFiles(s, events[..|events| - 1]);
      ApplySafe(before.next, events[|events| - 1]);
    }
  }

  // ---------------------------------------------------------------------
  // Several selections in a row.

  function Selections(files: seq<File>, email: string): (events: seq<Event>)
    ensures |events| == |files|
    ensures forall i :: 0 <= i < |files| ==> events[i] == ChangeFile(files[i], email)
  {
    seq(|files|, i requires 0 <= i < |files| => ChangeFile(files[i], email))
  }

  /** The last file in the list whose name is accepted, if any. */
  function LastAccepted(files: seq<File>): Option<File> {
    if files == [] then None
    else if IsImageName(files[|files| - 1].name) then Some(files[|files| - 1])
    else LastAccepted(files[..|files| - 1])
  }

  function Rejected(files: seq<File>): nat {
    if files == [] then 0
    else Rejected(files[..|files| - 1]) + (if IsImageName(files[|files| - 1].name) then 0 else 1)
  }

  lemma {:induction false} AlertsAppend(a: seq<Effect>, b: seq<Effect>)
    ensures Alerts(a + b) == Alerts(a) + Alerts(b)
  {
    if a == [] {
      assert a + b == b;
    } else {
      assert (a + b)[0] == a[0];
      assert (a + b)[1..] == a[1..] + b;
      AlertsAppend(a[1..], b);
    }
  }

  /**
   * After a series of selections the flag reflects the last file alone; the
   * staged name and payload are those of the last accepted file, or what was
   * staged before if none was accepted; and there was one alert per rejected
   * file.
   */
  lemma {:induction false} SelectionsStageLastAccepted(s: HandlerState, files: seq<File>, email: string)
    ensures var r := Run(s, Selections(files, email));
      && (files != [] ==> r.next.isImgFormatValid == IsImageName(files[|files| - 1].name))
      && r.next.fileName == (if LastAccepted(files).Some? then Some(LastAccepted(files).value.name) else s.fileName)
      && r.next.formData == (if LastAccepted(files).Some? then Some(Payload(LastAccepted(files).value, email)) else s.formData)
      && r.next.fileUrl == s.fileUrl && r.next.billId == s.billId
      && Alerts(r.effects) == Rejected(files)
  {
    var events := Selections(files, email);
    if files != [] {
      var init := files[..|files| - 1];
      assert events[..|events| - 1] == Selections(init, email);
      SelectionsStageLastAccepted(s, init, email);
      var before := Run(s, events[..|events| - 1]);
      AlertsAppend(before.effects, SelectFile(before.next, files[|files| - 1], email).effects);
    }
  }

  // ---------------------------------------------------------------------
  // The submit sequence on fresh and previously used handlers.

  /**
   * The record sent to the store's update carries the file reference the
   * handler held before the upload: on a handler that has never uploaded it
   * is null, whatever reference the upload returned; the handler's own field
   * does take the returned reference.
   */
  lemma FirstUploadRecordsNoFileUrl(file: File, email: string, form: FormFields, url: string, key: string, updated: UpdateReply)
    requires IsImageName(file.name)
    ensures var staged := SelectFile(Initial, file, email).next;
      var r := SubmitBill(staged, form, email, CreateOk(url, key), updated);
      && r.effects[1].Update? && r.effects[1].bill.fileUrl == None
      && r.effects[1].bill.fileName == Some(file.name)
      && r.effects[1].selector == Some(key)
      && r.next.fileUrl == Some(url) && r.next.billId == Some(key)
  {
  }

  /** A second submit sends the reference returned by the first upload, not by its own. */
  lemma SecondUploadRecordsPreviousFileUrl(s: HandlerState, form: FormFields, email: string, url1: string, key1: string, url2: string, key2: string)
    requires s.isImgFormatValid
    ensures var first := SubmitBill(s, form, email, CreateOk(url1, key1), UpdateOk).next;
      var second := SubmitBill(first, form, email, CreateOk(url2, key2), UpdateOk);
      second.effects[1] == Update(BuildBill(form, email, Some(url1), s.fileName), Some(key2))
  {
  }

  /** The scenario of a successful submit on a fresh handler, effect by effect. */
  lemma FreshSubmitTrace(file: File, email: string, form: FormFields, url: string, key: string)
    requires IsImageName(file.name)
    ensures Run(Initial, [ChangeFile(file, email), Submit(form, email, CreateOk(url, key), UpdateOk)]).effects ==
              [ MarkFileInput(false),
                Create(Some(Payload(file, email))),
                Update(BuildBill(form, email, None, Some(file.name)), Some(key)),
                Navigate(Bills),
                Navigate(Bills) ]
  {
    var events := [ChangeFile(file, email), Submit(form, email, CreateOk(url, key), UpdateOk)];
    assert events[..1] == [ChangeFile(file, email)];
    assert events[..1][..0] == [];
    var staged := SelectFile(Initial, file, email);
    assert Run(Initial, events[..1]) == Step(staged.next, [] + staged.effects);
    var submitted := SubmitBill(staged.next, form, email, CreateOk(url, key), UpdateOk);
    assert Run(Initial, events) == Step(submitted.next, ([] + staged.effects) + submitted.effects);
  }

  /** A rejected first file leaves a fresh handler exactly as it was, after one alert; a submit then does nothing. */
  lemma RejectedFileThenSubmit(file: File, email: string, form: FormFields, created: CreateReply, updated: UpdateReply)
    requires !IsImageName(file.name)
    ensures SelectFile(Initial, file, email).next == Initial
    ensures Alerts(SelectFile(Initial, file, email).effects) == 1
    ensures SubmitBill(Initial, form, email, created, updated) == Step(Initial, [])
  {
  }
}
