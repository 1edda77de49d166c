/** Concurrent PUTs, readers and crashes: the store as a machine whose steps are the
    single writes a PUT makes while it holds the lock (config.go). */
module SettingsRuns {
  import opened SettingsDecoding
  import opened SettingsStore
  import opened SettingsValues
  import opened Wrappers

  function Merged(s: Settings, body: Body): Settings { DecodeBody(s, body).merged }

  /** What a sequence of applied updates makes of the settings. */
  function Fold(s: Settings, log: seq<Body>): Settings {
    if log == [] then s else Merged(Fold(s, log[..|log| - 1]), log[|log| - 1])
  }

  // ---------- The machine ----------

  /** The writer holding the lock: `before` is what it found, `pos` how many fields
      of its body it has decoded. */
  datatype Writer =
    | Free
    | Reading(body: Body, before: Settings, pos: nat)
    | Validated(body: Body, before: Settings)
    | Saved(body: Body, before: Settings)

  /** `cur` is what a reader would get now. `log` lists the applied updates in lock
      order; `spilt` tells that a PUT that was not applied has changed `cur`. */
  datatype State = State(
    cur: Settings, disk: Disk, writer: Writer, log: seq<Body>, spilt: bool, held: seq<Held>)

  /** A struct a reader has got and keeps: what it was got with, what it shows now, and
      which of its cells are the current struct's, and so show what that one shows.
      `sent` is what it showed when it was last marshalled, and the updates it had met
      by then. The rest is history: the updates since (`since` those that have ended,
      `from` where the one in progress stood when the struct was got). */
  datatype Held = Held(
    got: Settings, now: Settings, shares: Shares, sent: Option<Sent>, from: nat, since: seq<Update>)

  datatype Sent = Sent(settings: Settings, met: seq<Update>)

  datatype Action =
    | Lock(body: Body)
    | DecodeNext
    | Refuse
    | Validate
    | SaveOk
    | SaveFails
    | Swap
    | Get
    | Marshal(h: nat)

  /** The decode of the first pos fields. */
  function Sofar(w: Writer): Decoding
    requires w.Reading? && w.pos <= |Assigned(w.body)|
  {
    Decode(Begin(w.before), Assigned(w.body)[..w.pos])
  }

  /** The fields of its body the writer has decoded. */
  function Decoded(w: Writer): Fields {
    match w
    case Free => []
    case Reading(body, _, pos) => if pos <= |Assigned(body)| then Assigned(body)[..pos] else []
    case Validated(body, _) => Assigned(body)
    case Saved(body, _) => Assigned(body)
  }

  /** The update in progress, as a held struct has met it so far. */
  function Running(w: Writer, h: Held): Update {
    var d := Decoded(w);
    if h.from <= |d| then Update(d[..h.from], d[h.from..], false) else Update([], d, false)
  }

  /** The updates a held struct has met. */
  function Met(w: Writer, h: Held): seq<Update> { h.since + [Running(w, h)] }

  /** A held struct meets the end of an update. */
  function Ended(h: Held, decoded: Fields, applied: bool, shares: Shares): Held {
    var from := if h.from <= |decoded| then h.from else 0;
    h.(from := 0, since := h.since + [Update(decoded[..from], decoded[from..], applied)],
       shares := if applied then Both(h.shares, shares) else h.shares)
  }

  function AllEnded(held: seq<Held>, decoded: Fields, applied: bool, shares: Shares): seq<Held> {
    seq(|held|, i requires 0 <= i < |held| => Ended(held[i], decoded, applied, shares))
  }

  function AllTrack(held: seq<Held>, cur: Settings): seq<Held> {
    seq(|held|, i requires 0 <= i < |held| => held[i].(now := Tracks(held[i].now, held[i].shares, cur)))
  }

  /** What the writer's copy and the current struct share when it has decoded it all. */
  function SharesOf(w: Writer): Shares {
    if w.Free? then Shares(false, false, false) else DecodeBody(w.before, w.body).shares
  }

  predicate Enabled(path: string, s: State, a: Action) {
    match a
    case Lock(_) => s.writer.Free?
    case DecodeNext => s.writer.Reading? && s.writer.pos < |Assigned(s.writer.body)|
    case Refuse =>
      s.writer.Reading? && s.writer.pos == |Assigned(s.writer.body)| && !Acceptable(s.writer.before, s.writer.body)
    case Validate =>
      s.writer.Reading? && s.writer.pos == |Assigned(s.writer.body)| && Acceptable(s.writer.before, s.writer.body)
    case SaveOk => s.writer.Validated?
    case SaveFails => s.writer.Validated? && path != ""
    case Swap => s.writer.Saved?
    case Get => true
    case Marshal(h) => h < |s.held|
  }

  function Apply(path: string, s: State, a: Action): State
    requires Enabled(path, s, a)
  {
    match a
    case Lock(body) => s.(writer := Reading(body, s.cur, 0))
    case DecodeNext =>
      var w := s.writer.(pos := s.writer.pos + 1);
      s.(writer := w, cur := Sofar(w).cur, held := AllTrack(s.held, Sofar(w).cur))
    case Refuse =>
      s.(writer := Free, spilt := s.spilt || !Harmless(s.writer.before, s.writer.body),
         held := AllEnded(s.held, Decoded(s.writer), false, SharesOf(s.writer)))
    case Validate => s.(writer := Validated(s.writer.body, s.writer.before))
    case SaveOk =>
      s.(writer := Saved(s.writer.body, s.writer.before),
         disk := if path == "" then s.disk
                 else File(Object(Encode(Merged(s.writer.before, s.writer.body)))))
    case SaveFails =>
      s.(writer := Free, spilt := s.spilt || !Harmless(s.writer.before, s.writer.body),
         held := AllEnded(s.held, Decoded(s.writer), false, SharesOf(s.writer)))
    case Swap =>
      s.(writer := Free, cur := Merged(s.writer.before, s.writer.body), log := s.log + [s.writer.body],
         held := AllEnded(s.held, Decoded(s.writer), true, SharesOf(s.writer)))
    case Get =>
      s.(held := s.held + [Held(s.cur, s.cur, OwnCells(s.cur), None, |Decoded(s.writer)|, [])])
    case Marshal(h) =>
      var sent := Sent(s.held[h].now, Met(s.writer, s.held[h]));
      s.(held := s.held[h := s.held[h].(sent := Some(sent))])
  }

  function Init(path: string, disk: Disk): State {
    State(Load(path, disk), disk, Free, [], false, [])
  }

  predicate IsRun(path: string, disk: Disk, states: seq<State>, actions: seq<Action>) {
    && |states| == |actions| + 1
    && states[0] == Init(path, disk)
    && forall n :: 0 <= n < |actions| ==>
         Enabled(path, states[n], actions[n]) && states[n + 1] == Apply(path, states[n], actions[n])
  }

  // ---------- The invariant ----------

  /** The settings a reader sees are those the writer found, as its decode so far has
      left them. */
  predicate WriterSane(s: State) {
    match s.writer
    case Free => true
    case Reading(body, before, pos) => pos <= |Assigned(body)| && s.cur == Sofar(s.writer).cur && Fits(before)
    case Validated(body, before) =>
      s.cur == DecodeBody(before, body).cur && Acceptable(before, body) && Fits(before)
    case Saved(body, before) =>
      s.cur == DecodeBody(before, body).cur && Acceptable(before, body) && Fits(before)
  }

  /** What the writer, if any, found. */
  function Found(s: State): Settings {
    if s.writer.Free? then s.cur else s.writer.before
  }

  predicate Inv(path: string, disk: Disk, s: State) {
    && WriterSane(s)
    && Fits(s.cur) && Fits(Found(s))
    && (!s.spilt ==> Found(s) == Fold(Load(path, disk), s.log) && Valid(Found(s)))
    && Valid(Load(path, s.disk))
    && (path != "" && !s.spilt ==>
          Load(path, s.disk) == if s.writer.Saved? then Merged(s.writer.before, s.writer.body) else Found(s))
  }

  lemma StepInv(path: string, disk: Disk, s: State, a: Action)
    requires Inv(path, disk, s) && Enabled(path, s, a)
    ensures Inv(path, disk, Apply(path, s, a))
  {
    match a
    case Lock(body) => assert Assigned(body)[..0] == [];
    case DecodeNext => DecodeFits(Begin(s.writer.before), Assigned(s.writer.body)[..s.writer.pos + 1]);
    case Refuse => DecodedWhole(s);
    case Validate =>
      DecodedWhole(s);
      MergedFits(s.writer.before, s.writer.body);
    case SaveOk =>
      MergedFits(s.writer.before, s.writer.body);
      if path != "" { LoadAfterSave(path, Merged(s.writer.before, s.writer.body)); }
    case SaveFails => HarmlessExactly(s.writer.before, s.writer.body);
    case Get =>
    case Marshal(_) =>
    case Swap =>
      MergedFits(s.writer.before, s.writer.body);
  }

  /** An update that has been decoded to its end goes on to be saved exactly when its
      body decodes and leaves every field valid, and is refused exactly otherwise. */
  lemma DecidedExactly(path: string, s: State)
    requires s.writer.Reading? && s.writer.pos == |Assigned(s.writer.body)|
    ensures var good := Decodes(s.writer.body)
                        && Valid(FieldByField(s.writer.before, Assigned(s.writer.body)));
            (Enabled(path, s, Validate) <==> good) && (Enabled(path, s, Refuse) <==> !good)
  {
    AcceptableExactly(s.writer.before, s.writer.body);
  }

  lemma DecodedWhole(s: State)
    requires WriterSane(s) && s.writer.Reading? && s.writer.pos == |Assigned(s.writer.body)|
    ensures s.cur == DecodeBody(s.writer.before, s.writer.body).cur
    ensures s.cur == s.writer.before <==> Harmless(s.writer.before, s.writer.body)
  {
    assert Assigned(s.writer.body)[..s.writer.pos] == Assigned(s.writer.body);
    HarmlessExactly(s.writer.before, s.writer.body);
  }

  lemma {:induction false} RunInv(path: string, disk: Disk, states: seq<State>, actions: seq<Action>, n: nat)
    requires IsRun(path, disk, states, actions) && n < |states|
    ensures Inv(path, disk, states[n])
  {
    if n == 0 {
      LoadedIsValid(path, disk);
    } else {
      RunInv(path, disk, states, actions, n - 1);
      StepInv(path, disk, states[n - 1], actions[n - 1]);
    }
  }

  // ---------- Serialisability ----------

  /** As long as no PUT that was not applied has spilt, the settings outside the lock
      are the applied updates folded in lock order, and a restart would find them. */
  lemma Serialisable(path: string, disk: Disk, states: seq<State>, actions: seq<Action>, n: nat)
    requires IsRun(path, disk, states, actions) && n < |states|
    requires states[n].writer.Free? && !states[n].spilt
    ensures states[n].cur == Fold(Load(path, disk), states[n].log) && Valid(states[n].cur)
    ensures path != "" ==> Load(path, states[n].disk) == states[n].cur
  {
    RunInv(path, disk, states, actions, n);
  }

  /** A crash at any point, lock held or not, comes back with valid settings: the
      fold of the updates applied so far, or of those and the one being applied. */
  lemma CrashSafe(path: string, disk: Disk, states: seq<State>, actions: seq<Action>, n: nat)
    requires IsRun(path, disk, states, actions) && n < |states| && path != "" && !states[n].spilt
    ensures Valid(Load(path, states[n].disk))
    ensures Load(path, states[n].disk) == Fold(Load(path, disk), states[n].log)
            || (states[n].writer.Saved?
                && Load(path, states[n].disk) == Fold(Load(path, disk), states[n].log + [states[n].writer.body]))
  {
    RunInv(path, disk, states, actions, n);
  }

  /** A PUT that is not applied spills exactly when its body is not harmless to the
      settings it found: the code then leaves changed settings behind an error. */
  lemma SpillsExactly(path: string, disk: Disk, states: seq<State>, actions: seq<Action>, n: nat)
    requires IsRun(path, disk, states, actions) && n < |actions|
    requires actions[n].Refuse? || actions[n].SaveFails?
    ensures states[n + 1].cur == states[n].writer.before
            <==> Harmless(states[n].writer.before, states[n].writer.body)
    ensures states[n + 1].disk == states[n].disk && states[n + 1].log == states[n].log
    ensures states[n + 1].writer.Free?
    ensures states[n + 1].spilt <==> states[n].spilt || !Harmless(states[n].writer.before, states[n].writer.body)
  {
    RunInv(path, disk, states, actions, n);
    if actions[n].Refuse? { DecodedWhole(states[n]); }
    else { HarmlessExactly(states[n].writer.before, states[n].writer.body); }
  }

  /** Step k ended an update without applying it, and its body was not harmless. */
  predicate SpillsAt(states: seq<State>, actions: seq<Action>, k: nat)
    requires k < |actions| < |states|
  {
    && (actions[k].Refuse? || actions[k].SaveFails?) && !states[k].writer.Free?
    && !Harmless(states[k].writer.before, states[k].writer.body)
  }

  /** `spilt` tells just this. */
  lemma {:induction false} SpiltExactly(path: string, disk: Disk, states: seq<State>, actions: seq<Action>, n: nat)
    requires IsRun(path, disk, states, actions) && n < |states|
    ensures states[n].spilt <==> exists k :: 0 <= k < n && SpillsAt(states, actions, k)
  {
    if n > 0 {
      SpiltExactly(path, disk, states, actions, n - 1);
      assert states[n - 1 + 1] == Apply(path, states[n - 1], actions[n - 1]);
      assert states[n].spilt <==> states[n - 1].spilt || SpillsAt(states, actions, n - 1);
    }
  }

  // ---------- Wedging ----------

  /** An update that is not applied spoils valid settings exactly in the fields that its
      body gives a bad value: those found at its end fail validation there. */
  lemma RefusalWedgesExactly(path: string, disk: Disk, states: seq<State>, actions: seq<Action>, n: nat)
    requires IsRun(path, disk, states, actions) && n < |actions|
    requires (actions[n].Refuse? || actions[n].SaveFails?) && Valid(states[n].writer.before)
    ensures var before, body := states[n].writer.before, states[n].writer.body;
            && (forall key :: Spoilt(states[n + 1].cur, key) <==> Spoils(before, body, key))
            && (Acceptable(states[n + 1].cur, Object([])) <==> !SpoilsSome(before, body))
  {
    RunInv(path, disk, states, actions, n);
    if actions[n].Refuse? { DecodedWhole(states[n]); }
    WedgesExactly(states[n].writer.before, states[n].writer.body);
  }

  /** The field is spoilt, and the update in progress, if any, does not assign it. */
  predicate Wedged(s: State, key: Key) {
    && Spoilt(s.cur, key)
    && (s.writer.Free?
        || (s.writer.Reading? && Spoilt(s.writer.before, key) && Spares(s.writer.body, key)))
  }

  lemma WedgedStep(path: string, disk: Disk, s: State, a: Action, key: Key)
    requires Inv(path, disk, s) && Enabled(path, s, a) && Wedged(s, key)
    requires a.Lock? ==> Spares(a.body, key)
    ensures var t := Apply(path, s, a); Wedged(t, key) && t.log == s.log && t.disk == s.disk
  {
    match a
    case DecodeNext => SpoiltStays(s.writer.before, Assigned(s.writer.body)[..s.writer.pos + 1], key);
    case Validate => SpoiltWedges(s.writer.before, s.writer.body, key);
    case _ =>
  }

  /** Once a field is spoilt, as long as no update assigns it, none is applied, nothing
      is saved, and the field stays spoilt. */
  lemma {:induction false} WedgeStays(
    path: string, disk: Disk, states: seq<State>, actions: seq<Action>, m: nat, n: nat, key: Key)
    requires IsRun(path, disk, states, actions) && m <= n < |states|
    requires states[m].writer.Free? && Spoilt(states[m].cur, key)
    requires forall k :: m <= k < n && actions[k].Lock? ==> Spares(actions[k].body, key)
    ensures states[n].log == states[m].log && states[n].disk == states[m].disk
    ensures Wedged(states[n], key)
  {
    if m < n {
      WedgeStays(path, disk, states, actions, m, n - 1, key);
      RunInv(path, disk, states, actions, n - 1);
      WedgedStep(path, disk, states[n - 1], actions[n - 1], key);
      assert states[n - 1 + 1] == Apply(path, states[n - 1], actions[n - 1]);
    }
  }

  // ---------- Readers ----------

  /** While a PUT holds the lock, decoding, validating, saving or about to swap, a
      reader sees the settings the PUT found exactly as long as what it has decoded so
      far is harmless. */
  lemma ReaderSeesOldExactly(path: string, disk: Disk, states: seq<State>, actions: seq<Action>, n: nat)
    requires IsRun(path, disk, states, actions) && n < |states| && !states[n].writer.Free?
    ensures states[n].cur == states[n].writer.before
            <==> Harmless(states[n].writer.before, Object(Decoded(states[n].writer)))
  {
    RunInv(path, disk, states, actions, n);
    CurIsDecoded(states[n]);
    HarmlessExactly(states[n].writer.before, Object(Decoded(states[n].writer)));
  }

  lemma CurIsDecoded(s: State)
    requires WriterSane(s) && !s.writer.Free?
    ensures s.cur == Decode(Begin(s.writer.before), Decoded(s.writer)).cur
  {
  }

  /** If the settings it found were valid, what a reader gets meanwhile is valid exactly
      when what has been decoded spoils no field. */
  lemma ReaderSeesValidExactly(path: string, disk: Disk, states: seq<State>, actions: seq<Action>, n: nat)
    requires IsRun(path, disk, states, actions) && n < |states| && !states[n].writer.Free?
    requires Valid(states[n].writer.before)
    ensures Valid(states[n].cur) <==> !SpoilsSome(states[n].writer.before, Object(Decoded(states[n].writer)))
  {
    RunInv(path, disk, states, actions, n);
    CurIsDecoded(states[n]);
    WedgesExactly(states[n].writer.before, Object(Decoded(states[n].writer)));
  }

  /** Every field of the update already shows what it will be: a plain field is set to
      what it was, a null one stays null, and the cell of any other holds its last
      value. */
  predicate Arrived(s: Settings, sofar: Fields, all: Fields) {
    && LastPlain(s.compressUserMessages, all, CompressUserMessages, AsBool) == s.compressUserMessages
    && LastPlain(s.compressSystemMessages, all, CompressSystemMessages, AsBool) == s.compressSystemMessages
    && LastPlain(s.protectRecent, all, ProtectRecent, AsInt) == s.protectRecent
    && LastPlain(s.protectAnalysisContext, all, ProtectAnalysisContext, AsBool) == s.protectAnalysisContext
    && LastPlain(s.minTokensToCompress, all, MinTokensToCompress, AsInt) == s.minTokensToCompress
    && ArrivedPointer(s.targetRatio, 0.0, sofar, all, TargetRatio, AsReal)
    && ArrivedPointer(s.kompressModel, "", sofar, all, KompressModel, AsStr)
    && ArrivedPointer(s.savingsProfile, "", sofar, all, SavingsProfile, AsStr)
  }

  predicate ArrivedPointer<T(==)>(
    current: Option<T>, zero: T, sofar: Fields, all: Fields, key: Key, value: Token -> Option<T>)
  {
    var last := LastPointer(current, zero, all, key, value);
    var written := WrittenThrough(sofar, key, value);
    if current.None? then last.None? else last == if written.Some? then written else current
  }

  /** A reader sees settings that are neither those before the update nor those after
      it exactly when what has been decoded is not harmless and some field has not
      arrived. */
  lemma TornExactly(path: string, disk: Disk, states: seq<State>, actions: seq<Action>, n: nat)
    requires IsRun(path, disk, states, actions) && n < |states| && !states[n].writer.Free?
    ensures var before := states[n].writer.before;
            var sofar, all := Decoded(states[n].writer), Assigned(states[n].writer.body);
            states[n].cur != before && states[n].cur != Merged(before, states[n].writer.body)
            <==> !Harmless(before, Object(sofar)) && !Arrived(before, sofar, all)
  {
    var s := states[n];
    var all := Assigned(s.writer.body);
    RunInv(path, disk, states, actions, n);
    ReaderSeesOldExactly(path, disk, states, actions, n);
    CurIsDecoded(s);
    DecodeWritesThrough(s.writer.before, Decoded(s.writer));
    DecodesFieldByField(s.writer.before, all);
    MergedIsDecoded(s.writer.before, s.writer.body);
  }

  lemma MergedIsDecoded(s: Settings, body: Body)
    ensures Merged(s, body) == Decode(Begin(s), Assigned(body)).merged
  {
  }

  /** Every PUT of the run is harmless to the settings it finds. */
  predicate AllHarmless(states: seq<State>, actions: seq<Action>) {
    |states| == |actions| + 1 &&
    forall n :: 0 <= n < |actions| && actions[n].Lock? ==> AlwaysHarmless(states[n].cur, actions[n].body)
  }

  /** Harmless after any number of fields. */
  predicate AlwaysHarmless(s: Settings, body: Body) {
    forall k :: 0 <= k <= |Assigned(body)| ==> Harmless(s, Object(Assigned(body)[..k]))
  }

  /** That is, the decode never changes them. */
  lemma AlwaysHarmlessExactly(s: Settings, body: Body)
    ensures AlwaysHarmless(s, body)
            <==> forall k :: 0 <= k <= |Assigned(body)| ==> Decode(Begin(s), Assigned(body)[..k]).cur == s
  {
    forall k | 0 <= k <= |Assigned(body)|
      ensures Harmless(s, Object(Assigned(body)[..k])) <==> Decode(Begin(s), Assigned(body)[..k]).cur == s
    {
      HarmlessExactly(s, Object(Assigned(body)[..k]));
    }
  }

  predicate Undisturbed(s: State) {
    && !s.spilt && s.cur == Found(s)
    && (s.writer.Free? || AlwaysHarmless(s.writer.before, s.writer.body))
  }

  lemma HarmlessStep(path: string, disk: Disk, s: State, a: Action)
    requires Inv(path, disk, s) && Enabled(path, s, a) && Undisturbed(s)
    requires a.Lock? ==> AlwaysHarmless(s.cur, a.body)
    ensures Undisturbed(Apply(path, s, a))
  {
    match a
    case DecodeNext =>
      var pos := s.writer.pos + 1;
      HarmlessExactly(s.writer.before, Object(Assigned(s.writer.body)[..pos]));
    case Refuse => WholeHarmless(s.writer.before, s.writer.body);
    case SaveFails => WholeHarmless(s.writer.before, s.writer.body);
    case _ =>
  }

  lemma {:induction false} HarmlessRun(path: string, disk: Disk, states: seq<State>, actions: seq<Action>, n: nat)
    requires IsRun(path, disk, states, actions) && n < |states| && AllHarmless(states, actions)
    ensures Undisturbed(states[n])
  {
    if n > 0 {
      HarmlessRun(path, disk, states, actions, n - 1);
      RunInv(path, disk, states, actions, n - 1);
      HarmlessStep(path, disk, states[n - 1], actions[n - 1]);
      assert states[n - 1 + 1] == Apply(path, states[n - 1], actions[n - 1]);
    }
  }

  lemma WholeHarmless(s: Settings, body: Body)
    requires AlwaysHarmless(s, body)
    ensures Harmless(s, body) && DecodeBody(s, body).cur == s
  {
    var f := Assigned(body);
    assert f[..|f|] == f;
    assert Harmless(s, Object(f[..|f|]));
    HarmlessExactly(s, body);
  }

  lemma {:induction false} LogGrows(path: string, disk: Disk, states: seq<State>, actions: seq<Action>, m: nat, n: nat)
    requires IsRun(path, disk, states, actions) && m <= n < |states|
    ensures states[m].log <= states[n].log
  {
    if m < n {
      LogGrows(path, disk, states, actions, m, n - 1);
    }
  }

  /** Then every value any reader gets at any time, lock held or not, is a prefix of
      the fold that the run ends with. */
  lemma ReadersSeePrefixes(path: string, disk: Disk, states: seq<State>, actions: seq<Action>, m: nat)
    requires IsRun(path, disk, states, actions) && m < |states| && AllHarmless(states, actions)
    ensures var log := states[|states| - 1].log;
            exists k :: 0 <= k <= |log| && states[m].cur == Fold(Load(path, disk), log[..k])
  {
    var last := |states| - 1;
    var log := states[last].log;
    HarmlessRun(path, disk, states, actions, m);
    RunInv(path, disk, states, actions, m);
    LogGrows(path, disk, states, actions, m, last);
    var k := |states[m].log|;
    assert log[..k] == states[m].log;
  }

  /** Decoding two fields, one after the other. */
  lemma TwoFields(before: Settings, f1: (Key, Token), f2: (Key, Token))
    ensures [f1, f2][..2] == [f1, f2]
    ensures Decode(Begin(before), [f1, f2]) == Step(Step(Begin(before), f1.0, f1.1), f2.0, f2.1)
  {
    assert [f1, f2][..0] == [] && [f1, f2] == [] + [f1] + [f2];
    DecodeSnoc(Begin(before), [], f1.0, f1.1);
    DecodeSnoc(Begin(before), [] + [f1], f2.0, f2.1);
  }

  /** Without that, even a PUT that is applied can show a reader settings that never
      were: here target_ratio is already the new one and protect_recent still the
      old one. */
  lemma TornRead()
    ensures exists states: seq<State>, actions: seq<Action>, disk: Disk ::
              && IsRun("p", disk, states, actions)
              && var s := states[|states| - 1];
              && s.writer.Saved? && !s.spilt
              && s.cur != s.writer.before && s.cur != Merged(s.writer.before, s.writer.body)
              && s.cur.targetRatio == Some(0.5) && s.cur.protectRecent == 4
  {
    var old_ := DEFAULTS.(targetRatio := Some(0.3));
    var disk := File(Object(Encode(old_)));
    LoadAfterSave("p", old_);
    var f1, f2 := (TargetRatio, Real(0.5)), (ProtectRecent, Int(0));
    var body := Object([f1, f2]);
    var s0 := Init("p", disk);
    var s1 := Apply("p", s0, Lock(body));
    var s2 := Apply("p", s1, DecodeNext);
    TwoFields(old_, f1, f2);
    var s3 := Apply("p", s2, DecodeNext);
    var s4 := Apply("p", s3, Validate);
    var s5 := Apply("p", s4, SaveOk);
    var states := [s0, s1, s2, s3, s4, s5];
    var actions := [Lock(body), DecodeNext, DecodeNext, Validate, SaveOk];
    assert IsRun("p", disk, states, actions);
  }

  // ---------- Structs held while updates go on ----------

  predicate HeldSane(s: State, h: Held) {
    && h.from <= |Decoded(s.writer)|
    && h.now == Tracks(h.now, h.shares, s.cur)
    && h.now == OverwrittenSince(h.got, Met(s.writer, h))
    && (h.sent.Some? ==> h.sent.value.settings == OverwrittenSince(h.got, h.sent.value.met))
    && (h.shares.ratio <==> h.got.targetRatio.Some? && !ReplacedBy(h.since, TargetRatio))
    && (h.shares.model <==> h.got.kompressModel.Some? && !ReplacedBy(h.since, KompressModel))
    && (h.shares.profile <==> h.got.savingsProfile.Some? && !ReplacedBy(h.since, SavingsProfile))
  }

  predicate AllHeldSane(s: State) {
    forall h :: 0 <= h < |s.held| ==> HeldSane(s, s.held[h])
  }

  lemma ReplacedSnoc(us: seq<Update>, u: Update, key: Key)
    ensures ReplacedBy(us + [u], key) <==> ReplacedBy(us, key) || Replaces(u, key)
  {
    var all := us + [u];
    assert all[|us|] == u;
    if ReplacedBy(us, key) {
      var k :| 0 <= k < |us| && Replaces(us[k], key);
      assert all[k] == us[k];
    }
  }

  lemma WrittenByAllSnoc<T>(us: seq<Update>, u: Update, key: Key, value: Token -> Option<T>)
    ensures WrittenByAll(us + [u], key, value)
            == if !ReplacedBy(us, key) && WrittenBy(u, key, value).Some? then WrittenBy(u, key, value)
               else WrittenByAll(us, key, value)
  {
    assert (us + [u])[..|us|] == us;
  }

  /** One field more of the update in progress, on one cell of a held struct. */
  lemma CellStep<T>(
    us: seq<Update>, before: Fields, fields: Fields, k: Key, t: Token, key: Key, value: Token -> Option<T>)
    ensures var old_ := WrittenByAll(us + [Update(before, fields, false)], key, value);
            WrittenByAll(us + [Update(before, fields + [(k, t)], false)], key, value)
            == if !ReplacedBy(us, key) && !NullSeen(before + fields, key) && k == key && !t.Null? && value(t).Some?
               then value(t) else old_
  {
    WrittenByAllSnoc(us, Update(before, fields, false), key, value);
    WrittenByAllSnoc(us, Update(before, fields + [(k, t)], false), key, value);
    WrittenSnoc(fields, k, t, key, value);
    NullAppend(before, fields, key);
  }

  lemma NullAppend(a: Fields, b: Fields, key: Key)
    ensures NullSeen(a + b, key) <==> NullSeen(a, key) || NullSeen(b, key)
  {
    var all := a + b;
    if NullSeen(a, key) {
      var n :| 0 <= n < |a| && a[n] == (key, Null);
      assert all[n] == (key, Null);
    }
    if NullSeen(b, key) {
      var n :| 0 <= n < |b| && b[n] == (key, Null);
      assert all[|a| + n] == (key, Null);
    }
  }

  /** So a cell of a held struct that is the current one moves with it, and any other
      stays. */
  lemma CellMoves<T>(
    got: Option<T>, now: Option<T>, cur: Option<T>, shared: bool,
    us: seq<Update>, before: Fields, fields: Fields, k: Key, t: Token, key: Key, value: Token -> Option<T>)
    requires t.Null? ==> value(t).None?
    requires shared <==> got.Some? && !ReplacedBy(us, key)
    requires shared ==> now == cur
    requires now == Overwrite(got, WrittenByAll(us + [Update(before, fields, false)], key, value))
    ensures var next := Through(k == key, cur.Some? && !NullSeen(before + fields, key), value(t), cur);
            (if shared then next else now)
            == Overwrite(got, WrittenByAll(us + [Update(before, fields + [(k, t)], false)], key, value))
  {
    CellStep(us, before, fields, k, t, key, value);
  }

  lemma CellsMove(s: State, h: Held, a: Fields, b: Fields, k: Key, v: Token, next: Settings)
    requires HeldSane(s, h) && Decoded(s.writer) == a + b && a == Decoded(s.writer)[..h.from]
    requires MovesTo(s, k, v, next)
    ensures Tracks(h.now, h.shares, next) == OverwrittenSince(h.got, h.since + [Update(a, b + [(k, v)], false)])
  {
    assert b == Decoded(s.writer)[h.from..];
    CellMoves(h.got.targetRatio, h.now.targetRatio, s.cur.targetRatio, h.shares.ratio,
              h.since, a, b, k, v, TargetRatio, AsReal);
    CellMoves(h.got.kompressModel, h.now.kompressModel, s.cur.kompressModel, h.shares.model,
              h.since, a, b, k, v, KompressModel, AsStr);
    CellMoves(h.got.savingsProfile, h.now.savingsProfile, s.cur.savingsProfile, h.shares.profile,
              h.since, a, b, k, v, SavingsProfile, AsStr);
  }

  lemma SplitSnoc(fields: Fields, last: (Key, Token), n: nat)
    requires n <= |fields|
    ensures fields == fields[..n] + fields[n..]
    ensures (fields + [last])[..n] == fields[..n] && (fields + [last])[n..] == fields[n..] + [last]
  {
  }

  lemma DecodeNextHeld(path: string, disk: Disk, s: State, h: Held)
    requires Inv(path, disk, s) && Enabled(path, s, DecodeNext) && HeldSane(s, h)
    ensures var t := Apply(path, s, DecodeNext);
            HeldSane(t, h.(now := Tracks(h.now, h.shares, t.cur)))
  {
    var t := Apply(path, s, DecodeNext);
    var dec := Decoded(s.writer);
    var (k, v) := Assigned(s.writer.body)[s.writer.pos];
    var a, b := dec[..h.from], dec[h.from..];
    assert Decoded(t.writer) == dec + [(k, v)];
    SplitSnoc(dec, (k, v), h.from);
    NextCells(s, k, v);
    CellsMove(s, h, a, b, k, v, t.cur);
  }

  /** The nullable fields of the current settings once field k has been given v. */
  predicate MovesTo(s: State, k: Key, v: Token, next: Settings) {
    var dec, cur := Decoded(s.writer), s.cur;
    && next.targetRatio
       == Through(k == TargetRatio, cur.targetRatio.Some? && !NullSeen(dec, TargetRatio), AsReal(v), cur.targetRatio)
    && next.kompressModel
       == Through(k == KompressModel, cur.kompressModel.Some? && !NullSeen(dec, KompressModel), AsStr(v),
                  cur.kompressModel)
    && next.savingsProfile
       == Through(k == SavingsProfile, cur.savingsProfile.Some? && !NullSeen(dec, SavingsProfile), AsStr(v),
                  cur.savingsProfile)
  }

  /** What the next field does to the current cells. */
  lemma NextCells(s: State, k: Key, v: Token)
    requires WriterSane(s) && s.writer.Reading? && s.writer.pos < |Assigned(s.writer.body)|
    requires Assigned(s.writer.body)[s.writer.pos] == (k, v)
    ensures var dec := Decoded(s.writer);
            var next := Decode(Begin(s.writer.before), dec + [(k, v)]).cur;
            && next == Sofar(s.writer.(pos := s.writer.pos + 1)).cur
            && MovesTo(s, k, v, next)
  {
    var dec := Decoded(s.writer);
    assert Assigned(s.writer.body)[..s.writer.pos + 1] == dec + [(k, v)];
    DecodeSnoc(Begin(s.writer.before), dec, k, v);
    DecodeWritesThrough(s.writer.before, dec);
    StepOnCurrent(Decode(Begin(s.writer.before), dec), k, v);
  }

  /** A new struct shares every cell and has met nothing. */
  lemma GetHeld(path: string, s: State)
    ensures var t := Apply(path, s, Get); HeldSane(t, t.held[|s.held|])
  {
    var t := Apply(path, s, Get);
    var h := t.held[|s.held|];
    var u := Running(s.writer, h);
    assert u.fields == [];
    WrittenByAllSnoc([], u, TargetRatio, AsReal);
    WrittenByAllSnoc([], u, KompressModel, AsStr);
    WrittenByAllSnoc([], u, SavingsProfile, AsStr);
  }

  lemma EndedMet<T>(us: seq<Update>, u: Update, applied: bool, key: Key, value: Token -> Option<T>)
    ensures WrittenByAll(us + [u.(applied := applied)] + [Update([], [], false)], key, value)
            == WrittenByAll(us + [u], key, value)
  {
  }

  lemma EndHeld(path: string, disk: Disk, s: State, a: Action, h: Held)
    requires Inv(path, disk, s) && Enabled(path, s, a) && HeldSane(s, h)
    requires a.Refuse? || a.SaveFails? || a.Swap?
    ensures var t := Apply(path, s, a);
            HeldSane(t, Ended(h, Decoded(s.writer), a.Swap?, SharesOf(s.writer)))
  {
    var t := Apply(path, s, a);
    var g := Ended(h, Decoded(s.writer), a.Swap?, SharesOf(s.writer));
    var u := Running(s.writer, h);
    assert g.since == h.since + [u.(applied := a.Swap?)];
    assert Met(t.writer, g) == g.since + [Update([], [], false)];
    EndedMet(h.since, u, a.Swap?, TargetRatio, AsReal);
    EndedMet(h.since, u, a.Swap?, KompressModel, AsStr);
    EndedMet(h.since, u, a.Swap?, SavingsProfile, AsStr);
    EndShares(s, h, a.Swap?);
    if a.Swap? { SwapTracks(s, h, g); }
  }

  lemma EndShares(s: State, h: Held, applied: bool)
    requires WriterSane(s) && !s.writer.Free? && HeldSane(s, h)
    requires s.writer.Reading? ==> !applied
    ensures var g := Ended(h, Decoded(s.writer), applied, SharesOf(s.writer));
            && (g.shares.ratio <==> g.got.targetRatio.Some? && !ReplacedBy(g.since, TargetRatio))
            && (g.shares.model <==> g.got.kompressModel.Some? && !ReplacedBy(g.since, KompressModel))
            && (g.shares.profile <==> g.got.savingsProfile.Some? && !ReplacedBy(g.since, SavingsProfile))
  {
    var dec := Decoded(s.writer);
    var u := Running(s.writer, h).(applied := applied);
    assert u.before + u.fields == dec;
    ReplacedSnoc(h.since, u, TargetRatio);
    ReplacedSnoc(h.since, u, KompressModel);
    ReplacedSnoc(h.since, u, SavingsProfile);
    NullAppend(u.before, u.fields, TargetRatio);
    NullAppend(u.before, u.fields, KompressModel);
    NullAppend(u.before, u.fields, SavingsProfile);
    CurIsDecoded(s);
    DecodeWritesThrough(s.writer.before, dec);
    if applied { SharesAreDecoded(s.writer.before, s.writer.body); }
  }

  lemma SharesAreDecoded(s: Settings, body: Body)
    ensures DecodeBody(s, body).shares == Decode(Begin(s), Assigned(body)).shares
  {
  }

  /** What is still shared after the swap shows what it showed. */
  lemma SwapTracks(s: State, h: Held, g: Held)
    requires WriterSane(s) && s.writer.Saved? && HeldSane(s, h)
    requires g.now == h.now && g.shares == Both(h.shares, SharesOf(s.writer))
    ensures g.now == Tracks(g.now, g.shares, Merged(s.writer.before, s.writer.body))
  {
    BodyAgrees(s.writer.before, s.writer.body);
  }

  lemma BodyAgrees(s: Settings, body: Body)
    ensures SharedAgree(DecodeBody(s, body))
  {
    if body.Object? { DecodeAgrees(Begin(s), body.fields); }
  }

  lemma StepHeld(path: string, disk: Disk, s: State, a: Action)
    requires Inv(path, disk, s) && AllHeldSane(s) && Enabled(path, s, a)
    ensures AllHeldSane(Apply(path, s, a))
  {
    var t := Apply(path, s, a);
    forall i | 0 <= i < |t.held| ensures HeldSane(t, t.held[i]) {
      if a.Get? && i == |s.held| {
        GetHeld(path, s);
      } else {
        assert HeldSane(s, s.held[i]);
        if a.DecodeNext? { DecodeNextHeld(path, disk, s, s.held[i]); }
        else if a.Refuse? || a.SaveFails? || a.Swap? { EndHeld(path, disk, s, a, s.held[i]); }
        else {
          StepKeepsDecoded(path, s, a);
        }
      }
    }
  }

  lemma StepKeepsDecoded(path: string, s: State, a: Action)
    requires Enabled(path, s, a) && !a.DecodeNext? && !a.Refuse? && !a.SaveFails? && !a.Swap?
    ensures var t := Apply(path, s, a); t.cur == s.cur && Decoded(t.writer) == Decoded(s.writer)
  {
    if a.Lock? { assert Assigned(a.body)[..0] == []; }
    if a.Validate? { assert Assigned(s.writer.body)[..s.writer.pos] == Assigned(s.writer.body); }
  }

  lemma {:induction false} RunHeld(path: string, disk: Disk, states: seq<State>, actions: seq<Action>, n: nat)
    requires IsRun(path, disk, states, actions) && n < |states|
    ensures AllHeldSane(states[n])
  {
    if n > 0 {
      RunHeld(path, disk, states, actions, n - 1);
      RunInv(path, disk, states, actions, n - 1);
      StepHeld(path, disk, states[n - 1], actions[n - 1]);
      assert states[n - 1 + 1] == Apply(path, states[n - 1], actions[n - 1]);
    }
  }

  lemma {:induction false} GotStays(
    path: string, disk: Disk, states: seq<State>, actions: seq<Action>, m: nat, n: nat, h: nat)
    requires IsRun(path, disk, states, actions) && m <= n < |states| && h < |states[m].held|
    ensures h < |states[n].held| && states[n].held[h].got == states[m].held[h].got
  {
    if m < n {
      GotStays(path, disk, states, actions, m, n - 1, h);
      assert states[n - 1 + 1] == Apply(path, states[n - 1], actions[n - 1]);
    }
  }

  predicate Ends(a: Action) { a.Refuse? || a.SaveFails? || a.Swap? }

  /** An update that has decoded `all`, as a struct meets it that was got after `met` of
      these fields. */
  function UpdateMet(met: nat, all: Fields, applied: bool): Update {
    if met <= |all| then Update(all[..met], all[met..], applied) else Update([], all, applied)
  }

  /** The updates that end in steps m to n-1, as a struct got at step m meets them: of
      the one in progress then, if any, only the fields decoded later. */
  ghost function EndedSince(states: seq<State>, actions: seq<Action>, m: nat, n: nat): seq<Update>
    requires m <= n <= |actions| < |states|
  {
    if n == m then []
    else
      var front := EndedSince(states, actions, m, n - 1);
      if !Ends(actions[n - 1]) then front
      else
        var met := if front == [] then |Decoded(states[m].writer)| else 0;
        front + [UpdateMet(met, Decoded(states[n - 1].writer), actions[n - 1].Swap?)]
  }

  lemma EndsOnce(path: string, s: State, a: Action, h: nat)
    requires Enabled(path, s, a) && h < |s.held|
    ensures var t := Apply(path, s, a);
            && h < |t.held| && t.held[h].got == s.held[h].got
            && if Ends(a)
               then t.held[h].since == s.held[h].since + [UpdateMet(s.held[h].from, Decoded(s.writer), a.Swap?)]
                    && t.held[h].from == 0
               else t.held[h].since == s.held[h].since && t.held[h].from == s.held[h].from
  {
    var d := Decoded(s.writer);
    assert d[..0] == [] && d[0..] == d;
  }

  /** What a held struct is said to have met is what the run shows it has. */
  lemma {:induction false} MetIsHistory(
    path: string, disk: Disk, states: seq<State>, actions: seq<Action>, m: nat, n: nat)
    requires IsRun(path, disk, states, actions) && m < n < |states| && actions[m].Get?
    ensures var h := |states[m].held|;
            && h < |states[n].held| && states[n].held[h].got == states[m].cur
            && states[n].held[h].since == EndedSince(states, actions, m, n)
            && states[n].held[h].from
               == if EndedSince(states, actions, m, n) == [] then |Decoded(states[m].writer)| else 0
  {
    assert states[n - 1 + 1] == Apply(path, states[n - 1], actions[n - 1]);
    if n == m + 1 {
      assert EndedSince(states, actions, m, m) == [];
    } else {
      MetIsHistory(path, disk, states, actions, m, n - 1);
      EndsOnce(path, states[n - 1], actions[n - 1], |states[m].held|);
    }
  }

  /** The settings a reader got at step m, looked at again at any later time, are still
      those exactly when the updates it has met since are harmless to its cells. */
  lemma SnapshotStaysExactly(path: string, disk: Disk, states: seq<State>, actions: seq<Action>, m: nat, n: nat)
    requires IsRun(path, disk, states, actions) && m < n < |states| && actions[m].Get?
    ensures var h := |states[m].held|;
            && h < |states[n].held|
            && (states[n].held[h].now == states[m].cur
                <==> HarmlessSince(states[m].cur, Met(states[n].writer, states[n].held[h])))
  {
    var h := |states[m].held|;
    assert states[m + 1] == Apply(path, states[m], actions[m]);
    GotStays(path, disk, states, actions, m + 1, n, h);
    RunHeld(path, disk, states, actions, n);
    assert HeldSane(states[n], states[n].held[h]);
  }

  /** So what a reader marshalled is what it got exactly when the updates met in between
      are harmless to its cells. */
  lemma SentIsGotExactly(path: string, disk: Disk, states: seq<State>, actions: seq<Action>, n: nat, h: nat)
    requires IsRun(path, disk, states, actions) && n < |states| && h < |states[n].held|
    requires states[n].held[h].sent.Some?
    ensures states[n].held[h].sent.value.settings == states[n].held[h].got
            <==> HarmlessSince(states[n].held[h].got, states[n].held[h].sent.value.met)
  {
    RunHeld(path, disk, states, actions, n);
    assert HeldSane(states[n], states[n].held[h]);
  }

  /** And if what it got was valid, what it marshalled is valid exactly when the updates
      met in between leave no bad value in its cells. */
  lemma SentValidExactly(path: string, disk: Disk, states: seq<State>, actions: seq<Action>, n: nat, h: nat)
    requires IsRun(path, disk, states, actions) && n < |states| && h < |states[n].held|
    requires states[n].held[h].sent.Some? && Valid(states[n].held[h].got)
    ensures Valid(states[n].held[h].sent.value.settings)
            <==> !SpoiltSince(states[n].held[h].got, states[n].held[h].sent.value.met)
  {
    RunHeld(path, disk, states, actions, n);
    assert HeldSane(states[n], states[n].held[h]);
  }

  ghost predicate Reachable(path: string, disk: Disk, s: State) {
    exists states, actions :: IsRun(path, disk, states, actions) && states[|states| - 1] == s
  }

  lemma ReachInit(path: string, disk: Disk)
    ensures Reachable(path, disk, Init(path, disk))
  {
    var states := [Init(path, disk)];
    assert IsRun(path, disk, states, []) && states[|states| - 1] == Init(path, disk);
  }

  lemma ReachStep(path: string, disk: Disk, s: State, a: Action)
    requires Reachable(path, disk, s) && Enabled(path, s, a)
    ensures Reachable(path, disk, Apply(path, s, a))
  {
    var states, actions :| IsRun(path, disk, states, actions) && states[|states| - 1] == s;
    var states', actions' := states + [Apply(path, s, a)], actions + [a];
    assert IsRun(path, disk, states', actions') by {
      forall n | 0 <= n < |actions'|
        ensures Enabled(path, states'[n], actions'[n]) && states'[n + 1] == Apply(path, states'[n], actions'[n])
      {
        if n < |actions| { assert states'[n] == states[n] && states'[n + 1] == states[n + 1]; }
      }
    }
    assert states'[|states'| - 1] == Apply(path, s, a);
  }

  lemma OneField(s: Settings, key: Key, t: Token)
    ensures [(key, t)][..1] == [(key, t)]
    ensures Decode(Begin(s), [(key, t)]) == Step(Begin(s), key, t)
  {
    assert [(key, t)][..0] == [] && [(key, t)] == [] + [(key, t)];
    DecodeSnoc(Begin(s), [], key, t);
  }

  const AT_03 := DEFAULTS.(targetRatio := Some(0.3))
  const AT_05 := DEFAULTS.(targetRatio := Some(0.5))
  const TO_05 := Object([(TargetRatio, Real(0.5))])

  /** The settings have been got, and an update of target_ratio has been decoded. */
  lemma GotThenDecoded(disk: Disk) returns (s: State)
    requires Load("p", disk) == AT_03
    ensures Reachable("p", disk, s) && s.cur == AT_05 && s.writer == Reading(TO_05, AT_03, 1)
    ensures s.held == [Held(AT_03, AT_05, Shares(true, false, false), None, 0, [])] && s.log == [] && !s.spilt
  {
    var s0 := Init("p", disk);
    ReachInit("p", disk);
    ReachStep("p", disk, s0, Get);
    var s1 := Apply("p", s0, Get);
    ReachStep("p", disk, s1, Lock(TO_05));
    var s2 := Apply("p", s1, Lock(TO_05));
    OneField(AT_03, TargetRatio, Real(0.5));
    ReachStep("p", disk, s2, DecodeNext);
    s := Apply("p", s2, DecodeNext);
  }

  /** Then the update has been saved. */
  lemma GotThenSaved(disk: Disk) returns (s: State)
    requires Load("p", disk) == AT_03
    ensures Reachable("p", disk, s) && s.writer == Saved(TO_05, AT_03)
    ensures s.held == [Held(AT_03, AT_05, Shares(true, false, false), None, 0, [])] && s.log == [] && !s.spilt
  {
    var s0 := GotThenDecoded(disk);
    OneField(AT_03, TargetRatio, Real(0.5));
    ReachStep("p", disk, s0, Validate);
    var s1 := Apply("p", s0, Validate);
    ReachStep("p", disk, s1, SaveOk);
    s := Apply("p", s1, SaveOk);
  }

  /** And they need not be, though no update was in progress when they were got and the
      one that follows is applied: here the settings were got with target_ratio 0.3,
      and the same struct now says 0.5. */
  lemma SnapshotChanges(disk: Disk) returns (s: State)
    requires Load("p", disk) == AT_03
    ensures Reachable("p", disk, s) && s.writer.Free? && s.log == [TO_05] && !s.spilt && |s.held| == 1
    ensures s.held[0].got == AT_03 && s.held[0].now == AT_05 && s.held[0].since == [Update([], TO_05.fields, true)]
  {
    var saved := GotThenSaved(disk);
    ReachStep("p", disk, saved, Swap);
    s := Apply("p", saved, Swap);
    SwapEnds("p", saved);
  }

  lemma SwapEnds(path: string, s: State)
    requires Enabled(path, s, Swap) && |s.held| == 1 && s.held[0].from == 0 && s.held[0].since == [] && s.log == []
    ensures var t := Apply(path, s, Swap);
            && t.writer.Free? && t.log == [s.writer.body] && t.spilt == s.spilt && |t.held| == 1
            && t.held[0].got == s.held[0].got && t.held[0].now == s.held[0].now
            && t.held[0].since == [Update([], Assigned(s.writer.body), true)]
  {
    EndedOnce(s.held[0], Assigned(s.writer.body), SharesOf(s.writer));
  }

  lemma EndedOnce(h: Held, fields: Fields, shares: Shares)
    requires h.from == 0 && h.since == []
    ensures var g := Ended(h, fields, true, shares);
            g.since == [Update([], fields, true)] && g.got == h.got && g.now == h.now
  {
  }

  /** Such a disk there is. */
  lemma SnapshotDisk()
    ensures Load("p", File(Object(Encode(AT_03)))) == AT_03
  {
    LoadAfterSave("p", AT_03);
  }

  const BALANCED := DEFAULTS.(savingsProfile := Some("balanced"))
  const TO_NOPE := Object([(SavingsProfile, Str("nope"))])

  /** An unknown profile is marshalled for a worker: the settings were got with a known
      one, and the update that names the other is about to be refused. */
  lemma BadProfileSent() returns (disk: Disk, s: State)
    ensures Load("p", disk) == BALANCED
    ensures Reachable("p", disk, s) && Enabled("p", s, Refuse) && s.log == [] && !s.spilt
    ensures |s.held| == 1 && Valid(s.held[0].got) && s.held[0].sent.Some?
    ensures s.held[0].sent.value.settings.savingsProfile == Some("nope")
  {
    disk := File(Object(Encode(BALANCED)));
    LoadAfterSave("p", BALANCED);
    var s0 := Init("p", disk);
    ReachInit("p", disk);
    ReachStep("p", disk, s0, Get);
    var s1 := Apply("p", s0, Get);
    ReachStep("p", disk, s1, Lock(TO_NOPE));
    var s2 := Apply("p", s1, Lock(TO_NOPE));
    OneField(BALANCED, SavingsProfile, Str("nope"));
    ReachStep("p", disk, s2, DecodeNext);
    var s3 := Apply("p", s2, DecodeNext);
    ReachStep("p", disk, s3, Marshal(0));
    s := Apply("p", s3, Marshal(0));
  }

  // ---------- Updates of different fields ----------

  predicate Disjoint(a: Fields, b: Fields) {
    forall i, j :: 0 <= i < |a| && 0 <= j < |b| && a[i].0 == b[j].0 ==> a[i].0.Unknown?
  }

  predicate IsPointer(k: Key) { k.TargetRatio? || k.KompressModel? || k.SavingsProfile? }

  lemma CountCommutes(d: Decoding, k1: Key, t1: Token, k2: Key, t2: Token)
    requires k1.ProtectRecent? || k1.MinTokensToCompress? || k1.Unknown?
    requires k1 != k2 || k1.Unknown?
    ensures Step(Step(d, k1, t1), k2, t2) == Step(Step(d, k2, t2), k1, t1)
  {
  }

  lemma RatioCommutes(d: Decoding, t1: Token, k2: Key, t2: Token)
    requires k2.KompressModel? || k2.SavingsProfile?
    ensures Step(Step(d, TargetRatio, t1), k2, t2) == Step(Step(d, k2, t2), TargetRatio, t1)
  {
  }

  lemma StringsCommute(d: Decoding, t1: Token, t2: Token)
    ensures Step(Step(d, KompressModel, t1), SavingsProfile, t2) == Step(Step(d, SavingsProfile, t2), KompressModel, t1)
  {
  }

  lemma PointersCommute(d: Decoding, k1: Key, t1: Token, k2: Key, t2: Token)
    requires IsPointer(k1) && IsPointer(k2) && k1 != k2
    ensures Step(Step(d, k1, t1), k2, t2) == Step(Step(d, k2, t2), k1, t1)
  {
    if k1.TargetRatio? { RatioCommutes(d, t1, k2, t2); }
    else if k2.TargetRatio? { RatioCommutes(d, t2, k1, t1); }
    else if k1.KompressModel? { StringsCommute(d, t1, t2); }
    else { StringsCommute(d, t2, t1); }
  }

  lemma StepsCommute(d: Decoding, k1: Key, t1: Token, k2: Key, t2: Token)
    requires k1 != k2 || k1.Unknown?
    ensures Step(Step(d, k1, t1), k2, t2) == Step(Step(d, k2, t2), k1, t1)
  {
    if IsPointer(k1) && IsPointer(k2) { PointersCommute(d, k1, t1, k2, t2); }
    else {
      var (p, tp, q, tq) := if IsPointer(k1) then (k2, t2, k1, t1) else (k1, t1, k2, t2);
      if p.ProtectRecent? || p.MinTokensToCompress? || p.Unknown? { CountCommutes(d, p, tp, q, tq); }
    }
  }

  lemma {:induction false} StepCommutes(d: Decoding, k: Key, t: Token, fields: Fields)
    requires Disjoint([(k, t)], fields)
    ensures Decode(Step(d, k, t), fields) == Step(Decode(d, fields), k, t)
  {
    if fields != [] {
      var front := fields[..|fields| - 1];
      var last := fields[|fields| - 1];
      assert [(k, t)][0].0 == k;
      forall i, j | 0 <= i < 1 && 0 <= j < |front| && [(k, t)][i].0 == front[j].0 ensures [(k, t)][i].0.Unknown? {
        assert front[j] == fields[j];
      }
      StepCommutes(d, k, t, front);
      StepsCommute(Decode(d, front), k, t, last.0, last.1);
    }
  }

  lemma {:induction false} DecodesCommute(d: Decoding, a: Fields, b: Fields)
    requires Disjoint(a, b)
    ensures Decode(Decode(d, a), b) == Decode(Decode(d, b), a)
  {
    if a != [] {
      var front := a[..|a| - 1];
      var last := a[|a| - 1];
      forall i, j | 0 <= i < |front| && 0 <= j < |b| && front[i].0 == b[j].0 ensures front[i].0.Unknown? {
        assert front[i] == a[i];
      }
      DecodesCommute(d, front, b);
      StepCommutes(Decode(d, front), last.0, last.1, b);
    }
  }

  lemma StepMerged(d: Decoding, e: Decoding, key: Key, t: Token)
    requires d.merged == e.merged
    ensures Step(d, key, t).merged == Step(e, key, t).merged
  {
  }

  /** What is merged does not depend on what is shared. */
  lemma {:induction false} MergedAlike(d: Decoding, e: Decoding, fields: Fields)
    requires d.merged == e.merged
    ensures Decode(d, fields).merged == Decode(e, fields).merged
  {
    if fields != [] {
      var front := fields[..|fields| - 1];
      MergedAlike(d, e, front);
      StepMerged(Decode(d, front), Decode(e, front), fields[|fields| - 1].0, fields[|fields| - 1].1);
    }
  }

  /** No update is lost: two updates of different fields give the same settings in
      either order. */
  lemma DisjointUpdatesCommute(s: Settings, a: Fields, b: Fields)
    requires forall i, j :: 0 <= i < |a| && 0 <= j < |b| && a[i].0 == b[j].0 ==> a[i].0 == Unknown
    ensures Merged(Merged(s, Object(a)), Object(b)) == Merged(Merged(s, Object(b)), Object(a))
  {
    var da, db := Decode(Begin(s), a), Decode(Begin(s), b);
    MergedAlike(Begin(da.merged), da, b);
    MergedAlike(Begin(db.merged), db, a);
    DecodesCommute(Begin(s), a, b);
  }
}
