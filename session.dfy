/**
 * The per-session model state: the loaded model and the information read from
 * it, both empty until a model file is uploaded and parsed.
 */
module ModelSession {
  import opened Wrappers
  import opened Fields

  /** A parsed model; what the scoring engine keeps inside it is not part of this model. */
  datatype Handle = Handle(id: nat)

  /** What the session remembers about the loaded model. */
  datatype ModelInfo = ModelInfo(inputFields: seq<Field>, targetFields: seq<Field>, modelName: string)

  /** An uploaded model file: its name and its text. */
  datatype Upload = Upload(name: string, content: string)

  /**
   * What parsing the uploaded text and then reading the model's field lists
   * gave: both succeeded, the parse succeeded but reading the fields raised,
   * or the parse (or the decoding of the text) raised.
   */
  datatype ParseOutcome =
    | Parsed(handle: Handle, inputs: seq<Field>, targets: seq<Field>)
    | FieldsUnreadable(handle: Handle, fieldsError: string)
    | ParseFailed(parseError: string)

  /** The message the sidebar shows after a load attempt. */
  datatype Notice = NoAttempt | LoadedOk | LoadedPartly(warning: string) | LoadFailed(error: string)

  /** The two session fields as one value. */
  datatype SessionState = SessionState(model: Option<Handle>, info: Option<ModelInfo>)

  /** A model is held exactly when information about it is held: no half-loaded session. */
  predicate Consistent(s: SessionState)
  {
    s.model.Some? <==> s.info.Some?
  }

  /** Whether a rerun of the page tries to load: a file is uploaded and no model is held. */
  predicate Attempts(s: SessionState, upload: Option<Upload>)
  {
    upload.Some? && s.model.None?
  }

  /** The session fields after one rerun of the load step. */
  function Step(s: SessionState, upload: Option<Upload>, outcome: ParseOutcome): SessionState
  {
    if !Attempts(s, upload) then s
    else
      match outcome
      case Parsed(h, ins, outs) => SessionState(Some(h), Some(ModelInfo(ins, outs, upload.value.name)))
      case FieldsUnreadable(h, _) => SessionState(Some(h), Some(ModelInfo([], [], upload.value.name)))
      case ParseFailed(_) => SessionState(None, None)
  }

  /** The sidebar message after one rerun of the load step. */
  function StepNotice(s: SessionState, upload: Option<Upload>, outcome: ParseOutcome): Notice
  {
    if !Attempts(s, upload) then NoAttempt
    else
      match outcome
      case Parsed(_, _, _) => LoadedOk
      case FieldsUnreadable(_, e) => LoadedPartly(e)
      case ParseFailed(e) => LoadFailed(e)
  }

  /** One rerun of the page as the load step sees it. */
  datatype Rerun = Rerun(upload: Option<Upload>, outcome: ParseOutcome)

  /** The session fields after a series of reruns. */
  function Replay(s: SessionState, reruns: seq<Rerun>): SessionState
    decreases reruns
  {
    if reruns == [] then s
    else Replay(Step(s, reruns[0].upload, reruns[0].outcome), reruns[1..])
  }

  class Session {
    var model: Option<Handle>
    var modelInfo: Option<ModelInfo>

    function State(): SessionState
      reads this
    {
      SessionState(model, modelInfo)
    }

    predicate Valid()
      reads this
    {
      Consistent(State())
    }

    /** A new session holds neither a model nor information about one. */
    constructor ()
      ensures Valid()
      ensures model == None && modelInfo == None
    {
      model := None;
      modelInfo := None;
    }

    /**
     * The load step of one rerun: with a file uploaded and no model held, stores
     * the parsed model, then the field lists it declares (empty lists when
     * reading them raised); a parse that raised clears both fields.
     */
    method Load(upload: Option<Upload>, outcome: ParseOutcome) returns (notice: Notice)
      requires Valid()
      modifies this
      ensures Valid()
      ensures State() == Step(old(State()), upload, outcome)
      ensures notice == StepNotice(old(State()), upload, outcome)
    {
      notice := NoAttempt;
      if upload.Some? && model.None? {
        match outcome {
          case ParseFailed(e) =>
            notice := LoadFailed(e);
            model := None;
            modelInfo := None;
          case Parsed(h, ins, outs) =>
            model := Some(h);
            modelInfo := Some(ModelInfo(ins, outs, upload.value.name));
            notice := LoadedOk;
          case FieldsUnreadable(h, e) =>
            model := Some(h);
            notice := LoadedPartly(e);
            modelInfo := Some(ModelInfo([], [], upload.value.name));
        }
      }
    }
  }

  /** Without an upload, or with a model already held, a rerun changes nothing. */
  lemma NoAttemptKeepsState(s: SessionState, upload: Option<Upload>, outcome: ParseOutcome)
    requires !Attempts(s, upload)
    ensures Step(s, upload, outcome) == s
    ensures StepNotice(s, upload, outcome) == NoAttempt
  {
  }

  /** A rerun replaces the held model only when it attempts a load, that is, only when none was held. */
  lemma ModelChangesOnlyOnAttempt(s: SessionState, upload: Option<Upload>, outcome: ParseOutcome)
    requires Step(s, upload, outcome).model != s.model
    ensures upload.Some? && s.model.None?
  {
  }

  /** A failed parse leaves neither a model nor information behind. */
  lemma ParseFailureLeavesNothing(s: SessionState, upload: Option<Upload>, e: string)
    requires Attempts(s, upload)
    ensures Step(s, upload, ParseFailed(e)) == SessionState(None, None)
  {
  }

  /** On a consistent session a failed parse changes nothing at all: there was nothing to lose. */
  lemma ParseFailureIsNoChange(s: SessionState, upload: Option<Upload>, e: string)
    requires Consistent(s)
    ensures Step(s, upload, ParseFailed(e)) == s
  {
  }

  /**
   * When the fields cannot be read the model is still kept, with empty input
   * and target lists and the uploaded file's name.
   */
  lemma UnreadableFieldsKeepModel(s: SessionState, upload: Option<Upload>, h: Handle, e: string)
    requires Attempts(s, upload)
    ensures Step(s, upload, FieldsUnreadable(h, e)).model == Some(h)
    ensures Step(s, upload, FieldsUnreadable(h, e)).info == Some(ModelInfo([], [], upload.value.name))
  {
  }

  /** A full load keeps the model with its declared field lists and the uploaded file's name. */
  lemma SuccessfulLoadRecordsFields(s: SessionState, upload: Option<Upload>, h: Handle, ins: seq<Field>, outs: seq<Field>)
    requires Attempts(s, upload)
    ensures Step(s, upload, Parsed(h, ins, outs)) == SessionState(Some(h), Some(ModelInfo(ins, outs, upload.value.name)))
  {
  }

  /** Every rerun keeps the session consistent. */
  lemma StepKeepsConsistent(s: SessionState, upload: Option<Upload>, outcome: ParseOutcome)
    requires Consistent(s)
    ensures Consistent(Step(s, upload, outcome))
  {
  }

  /** Once a model is held, no series of reruns, whatever is uploaded, replaces it or its information. */
  lemma {:induction false} HeldModelIsNeverReplaced(s: SessionState, reruns: seq<Rerun>)
    requires s.model.Some?
    ensures Replay(s, reruns) == s
    decreases reruns
  {
    if reruns != [] {
      HeldModelIsNeverReplaced(Step(s, reruns[0].upload, reruns[0].outcome), reruns[1..]);
    }
  }

  /** No series of reruns leaves a consistent session half-loaded. */
  lemma {:induction false} ReplayKeepsConsistent(s: SessionState, reruns: seq<Rerun>)
    requires Consistent(s)
    ensures Consistent(Replay(s, reruns))
    decreases reruns
  {
    if reruns != [] {
      StepKeepsConsistent(s, reruns[0].upload, reruns[0].outcome);
      ReplayKeepsConsistent(Step(s, reruns[0].upload, reruns[0].outcome), reruns[1..]);
    }
  }

  /**
   * The model a session ends up holding is the one of the first rerun whose
   * load stored a model: later reruns, whatever is uploaded, keep it.
   */
  lemma {:induction false} FirstLoadedModelStays(s: SessionState, reruns: seq<Rerun>, k: nat)
    requires k < |reruns|
    requires Replay(s, reruns[..k + 1]).model.Some?
    ensures Replay(s, reruns) == Replay(s, reruns[..k + 1])
  {
    ReplaySplit(s, reruns[..k + 1], reruns[k + 1..]);
    assert reruns[..k + 1] + reruns[k + 1..] == reruns;
    HeldModelIsNeverReplaced(Replay(s, reruns[..k + 1]), reruns[k + 1..]);
  }

  /** Replaying two series one after the other is replaying their concatenation. */
  lemma {:induction false} ReplaySplit(s: SessionState, first: seq<Rerun>, rest: seq<Rerun>)
    ensures Replay(s, first + rest) == Replay(Replay(s, first), rest)
    decreases first
  {
    if first == [] {
      assert first + rest == rest;
    } else {
      assert (first + rest)[0] == first[0];
      assert (first + rest)[1..] == first[1..] + rest;
      ReplaySplit(Step(s, first[0].upload, first[0].outcome), first[1..], rest);
    }
  }
}
