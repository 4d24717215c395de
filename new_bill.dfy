/**
 * The `NewBill` container: an object whose handlers update its fields in
 * place. Each handler is proved to do exactly what the matching function of
 * NewBillSpec says, and to keep that module's invariant.
 */
module NewBillContainer {
  import opened Wrappers
  import opened ImageExtension
  import opened BillRecord
  import opened NewBillSpec

  class NewBill {
    /** Whether the container was given a store. */
    const hasStore: bool
    var fileUrl: Option<string>
    var fileName: Option<string>
    var billId: Option<string>
    /** Set by the constructor and read by nobody: the handlers use `isImgFormatValid`. */
    var isValidFormat: bool
    var isImgFormatValid: bool
    var formData: Option<Payload>
    /** Everything the handler has done to the outside world, oldest first. */
    var effects: seq<Effect>

    function State(): HandlerState
      reads this
    {
      HandlerState(fileUrl, fileName, billId, isImgFormatValid, formData)
    }

    ghost predicate Valid()
      reads this
    {
      Consistent(State())
    }

    constructor (hasStore: bool)
      ensures Valid() && State() == Initial && effects == []
      ensures this.hasStore == hasStore && !isValidFormat
    {
      this.hasStore := hasStore;
      fileUrl := None;
      fileName := None;
      billId := None;
      isValidFormat := false;
      isImgFormatValid := false;
      formData := None;
      effects := [];
    }

    /** The file input's change handler; `email` is the session user's. */
    method HandleChangeFile(file: File, email: string)
      modifies this
      ensures State() == SelectFile(old(State()), file, email).next
      ensures effects == old(effects) + SelectFile(old(State()), file, email).effects
      ensures isValidFormat == old(isValidFormat)
      ensures old(Valid()) ==> Valid()
    {
      var accepted := IsImageName(file.name);
      isImgFormatValid := accepted;
      if !accepted {
        effects := effects + [ClearFileInput, MarkFileInput(true), Alert(FormatAlert)];
      } else {
        effects := effects + [MarkFileInput(false)];
        formData := Some(Payload(file, email));
        fileName := Some(file.name);
      }
      if old(Valid()) {
        SelectFilePreserves(old(State()), file, email);
      }
    }

    /**
     * The form's submit handler; `email` is the session user's, `created`
     * and `updated` are the store's answers to the upload and the update.
     */
    method HandleSubmit(form: FormFields, email: string, created: CreateReply, updated: UpdateReply)
      requires isImgFormatValid ==> hasStore
      modifies this
      ensures State() == SubmitBill(old(State()), form, email, created, updated).next
      ensures effects == old(effects) + SubmitBill(old(State()), form, email, created, updated).effects
      ensures isValidFormat == old(isValidFormat)
      ensures old(Valid()) ==> Valid()
    {
      ghost var before := State();
      ghost var step := SubmitBill(before, form, email, created, updated);
      var bill := BuildBill(form, email, fileUrl, fileName);
      if isImgFormatValid {
        effects := effects + [Create(formData)];
        match created {
          case CreateErr(e) =>
            effects := effects + [LogError(e)];
            assert effects == old(effects) + step.effects;
          case CreateOk(url, key) =>
            billId := Some(key);
            fileUrl := Some(url);
            var settled := UpdateBill(bill, updated);
            effects := effects + [Navigate(Bills)] + settled;
            ghost var d := DispatchUpdate(true, Some(key), bill, updated);
            assert State() == before.(billId := Some(key), fileUrl := Some(url));
            assert effects == old(effects) + ([Create(before.formData)] + d.issued + [Navigate(Bills)] + d.settled);
        }
      }
      if old(Valid()) {
        SubmitBillPreserves(old(State()), form, email, created, updated);
      }
    }

    /**
     * Sends the record to the store's update under the current bill id. The
     * update's answer arrives later: what it triggers is returned, for the
     * caller to append once its own work is done.
     */
    method UpdateBill(bill: Bill, reply: UpdateReply) returns (settled: seq<Effect>)
      modifies this`effects
      ensures effects == old(effects) + DispatchUpdate(hasStore, billId, bill, reply).issued
      ensures settled == DispatchUpdate(hasStore, billId, bill, reply).settled
    {
      if hasStore {
        effects := effects + [Update(bill, billId)];
        match reply {
          case UpdateOk => settled := [Navigate(Bills)];
          case UpdateErr(e) => settled := [LogError(e)];
        }
      } else {
        settled := [];
      }
    }
  }

  /**
   * An accepted file on a fresh container without a store: the name is staged,
   * the flag goes up and no alert is raised.
   */
  method AcceptedFileScenario(email: string) returns (staged: Option<string>, flag: bool, alerts: nat)
    ensures staged == Some("file.png") && flag && alerts == 0
  {
    var handler := new NewBill(false);
    var png := File("file.png", []);
    AcceptedExamples();
    handler.HandleChangeFile(png, email);
    assert handler.formData == Some(Payload(png, email));
    assert handler.effects == [MarkFileInput(false)];
    staged, flag, alerts := handler.fileName, handler.isImgFormatValid, Alerts(handler.effects);
  }

  /**
   * A rejected file on a fresh container without a store: nothing is staged,
   * the flag stays down and exactly one alert is raised.
   */
  method RejectedFileScenario(email: string) returns (staged: Option<string>, flag: bool, alerts: nat)
    ensures staged == None && !flag && alerts == 1
  {
    var handler := new NewBill(false);
    var xml := File("file.xml", []);
    RejectedExamples();
    handler.HandleChangeFile(xml, email);
    assert handler.formData == None;
    assert handler.effects == [ClearFileInput, MarkFileInput(true), Alert(FormatAlert)];
    staged, flag, alerts := handler.fileName, handler.isImgFormatValid, Alerts(handler.effects);
  }
}
