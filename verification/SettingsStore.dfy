/** The settings store with its real sharing: nullable fields are pointers to cells,
    and merge decodes onto a shallow copy of the current struct (config.go). */
module SettingsStore {
  import opened SettingsDecoding
  import opened SettingsValues
  import opened Wrappers

  class Cell<T> {
    var v: T
    constructor (v: T)
      ensures this.v == v
    {
      this.v := v;
    }
  }

  /** The struct as it is in memory. */
  datatype Struct = Struct(
    compressUserMessages: bool,
    compressSystemMessages: bool,
    protectRecent: int,
    protectAnalysisContext: bool,
    targetRatio: Cell?<real>,
    minTokensToCompress: int,
    kompressModel: Cell?<string>,
    savingsProfile: Cell?<string>)

  function Deref<T>(c: Cell?<T>): Option<T>
    reads c
  {
    if c == null then None else Some(c.v)
  }

  function View(st: Struct): Settings
    reads st.targetRatio, st.kompressModel, st.savingsProfile
  {
    Settings(st.compressUserMessages, st.compressSystemMessages, st.protectRecent, st.protectAnalysisContext,
             Deref(st.targetRatio), st.minTokensToCompress, Deref(st.kompressModel), Deref(st.savingsProfile))
  }

  predicate Apart<T>(a: Cell?<T>, b: Cell?<T>) { a != null ==> a != b }

  /** The two string pointers of a struct are not the same cell. */
  predicate Separate(st: Struct) { Apart(st.kompressModel, st.savingsProfile) }

  /** A pointer of the current struct, the same pointer of a copy, the values behind
      them, and whether they are one cell. */
  ghost predicate PointerAgrees<T>(theirs: Cell?<T>, mine: Cell?<T>, cur: Option<T>, merged: Option<T>, shared: bool)
    reads theirs, mine
  {
    && Deref(theirs) == cur && Deref(mine) == merged
    && (if shared then mine != null && mine == theirs else Apart(mine, theirs))
  }

  predicate IsShared<T>(a: Cell?<T>, b: Cell?<T>) { a != null && a == b }

  /** Which cells of a held struct are those of `st`. */
  function SharedCells(held: Struct, st: Struct): Shares {
    Shares(IsShared(held.targetRatio, st.targetRatio),
           IsShared(held.kompressModel, st.kompressModel),
           IsShared(held.savingsProfile, st.savingsProfile))
  }

  /** A struct got from the store, then or earlier: its cells are those of `st`, under
      the same field, or no longer anybody's. */
  predicate Snapshot(held: Struct, st: Struct) {
    Apart(held.kompressModel, st.savingsProfile) && Apart(held.savingsProfile, st.kompressModel)
  }

  predicate PlainAgrees(st: Struct, s: Settings) {
    && st.compressUserMessages == s.compressUserMessages
    && st.compressSystemMessages == s.compressSystemMessages
    && st.protectRecent == s.protectRecent
    && st.protectAnalysisContext == s.protectAnalysisContext
    && st.minTokensToCompress == s.minTokensToCompress
  }

  /** The heap agrees with a decode on values. */
  ghost predicate Agrees(st: Struct, copy: Struct, d: Decoding)
    reads st.targetRatio, st.kompressModel, st.savingsProfile
    reads copy.targetRatio, copy.kompressModel, copy.savingsProfile
  {
    && PlainAgrees(st, d.cur) && PlainAgrees(copy, d.merged)
    && PointerAgrees(st.targetRatio, copy.targetRatio, d.cur.targetRatio, d.merged.targetRatio, d.shares.ratio)
    && PointerAgrees(st.kompressModel, copy.kompressModel, d.cur.kompressModel, d.merged.kompressModel, d.shares.model)
    && PointerAgrees(st.savingsProfile, copy.savingsProfile, d.cur.savingsProfile,
                     d.merged.savingsProfile, d.shares.profile)
    && Separate(st) && Separate(copy)
    && Apart(st.kompressModel, copy.savingsProfile) && Apart(copy.kompressModel, st.savingsProfile)
  }

  /** One assignment to a pointer field: null drops the pointer; anything else goes
      through it, allocated if nil. */
  method DecodePointer<T>(ghost theirs: Cell?<T>, mine: Cell?<T>, t: Token, value: Option<T>, zero: T,
                          ghost cur: Option<T>, ghost merged: Option<T>, ghost shared: bool)
    returns (p: Cell?<T>, bad: bool)
    requires PointerAgrees(theirs, mine, cur, merged, shared)
    modifies mine
    ensures var (merged', cur', shared', bad') := PointerStep(merged, cur, shared, t, value, zero);
            PointerAgrees(theirs, p, cur', merged', shared') && bad == bad'
    ensures p != null && p != mine ==> fresh(p)
  {
    if t.Null? {
      return null, false;
    }
    p := mine;
    if p == null {
      p := new Cell(zero);
    }
    match value
    case Some(v) =>
      p.v := v;
      bad := false;
    case None =>
      bad := true;
  }

  method DecodeRatio(ghost st: Struct, copy: Struct, t: Token, ghost d: Decoding)
    returns (next: Struct, bad: bool, ghost e: Decoding)
    requires Agrees(st, copy, d)
    modifies copy.targetRatio
    ensures e == Step(d, TargetRatio, t) && Agrees(st, next, e) && (d.bad || bad) == e.bad
    ensures next == copy.(targetRatio := next.targetRatio)
    ensures next.targetRatio != null && next.targetRatio != copy.targetRatio ==> fresh(next.targetRatio)
  {
    var p;
    p, bad := DecodePointer(st.targetRatio, copy.targetRatio, t, AsReal(t), 0.0,
                            d.cur.targetRatio, d.merged.targetRatio, d.shares.ratio);
    next := copy.(targetRatio := p);
    e := Step(d, TargetRatio, t);
  }

  method DecodeModel(ghost st: Struct, copy: Struct, t: Token, ghost d: Decoding)
    returns (next: Struct, bad: bool, ghost e: Decoding)
    requires Agrees(st, copy, d)
    modifies copy.kompressModel
    ensures e == Step(d, KompressModel, t) && Agrees(st, next, e) && (d.bad || bad) == e.bad
    ensures next == copy.(kompressModel := next.kompressModel)
    ensures next.kompressModel != null && next.kompressModel != copy.kompressModel ==> fresh(next.kompressModel)
  {
    var p;
    p, bad := DecodePointer(st.kompressModel, copy.kompressModel, t, AsStr(t), "",
                            d.cur.kompressModel, d.merged.kompressModel, d.shares.model);
    next := copy.(kompressModel := p);
    e := Step(d, KompressModel, t);
  }

  method DecodeProfile(ghost st: Struct, copy: Struct, t: Token, ghost d: Decoding)
    returns (next: Struct, bad: bool, ghost e: Decoding)
    requires Agrees(st, copy, d)
    modifies copy.savingsProfile
    ensures e == Step(d, SavingsProfile, t) && Agrees(st, next, e) && (d.bad || bad) == e.bad
    ensures next == copy.(savingsProfile := next.savingsProfile)
    ensures next.savingsProfile != null && next.savingsProfile != copy.savingsProfile ==> fresh(next.savingsProfile)
  {
    var p;
    p, bad := DecodePointer(st.savingsProfile, copy.savingsProfile, t, AsStr(t), "",
                            d.cur.savingsProfile, d.merged.savingsProfile, d.shares.profile);
    next := copy.(savingsProfile := p);
    e := Step(d, SavingsProfile, t);
  }

  predicate IsString(key: Key) { key.KompressModel? || key.SavingsProfile? }

  method DecodeString(ghost st: Struct, copy: Struct, key: Key, t: Token, ghost d: Decoding)
    returns (next: Struct, bad: bool, ghost e: Decoding)
    requires Agrees(st, copy, d) && IsString(key)
    modifies copy.kompressModel, copy.savingsProfile
    ensures e == Step(d, key, t) && Agrees(st, next, e) && (d.bad || bad) == e.bad
    ensures next == copy.(kompressModel := next.kompressModel, savingsProfile := next.savingsProfile)
    ensures next.kompressModel != null && next.kompressModel != copy.kompressModel ==> fresh(next.kompressModel)
    ensures next.savingsProfile != null && next.savingsProfile != copy.savingsProfile ==> fresh(next.savingsProfile)
  {
    if key.KompressModel? {
      next, bad, e := DecodeModel(st, copy, t, d);
    } else {
      next, bad, e := DecodeProfile(st, copy, t, d);
    }
  }

  method DecodeOther(ghost st: Struct, copy: Struct, key: Key, t: Token, ghost d: Decoding)
    returns (next: Struct, bad: bool, ghost e: Decoding)
    requires Agrees(st, copy, d) && !IsString(key)
    modifies copy.targetRatio
    ensures e == Step(d, key, t) && Agrees(st, next, e) && (d.bad || bad) == e.bad
    ensures next.kompressModel == copy.kompressModel && next.savingsProfile == copy.savingsProfile
    ensures next.targetRatio != null && next.targetRatio != copy.targetRatio ==> fresh(next.targetRatio)
  {
    if key.TargetRatio? {
      next, bad, e := DecodeRatio(st, copy, t, d);
    } else {
      PlainStep(d, key, t);
      next, bad := DecodePlain(copy, key, t, d);
      e := Step(d, key, t);
    }
  }

  /** json.Unmarshal of one object field onto `copy`. */
  method DecodeField(ghost st: Struct, copy: Struct, key: Key, t: Token, ghost d: Decoding)
    returns (next: Struct, bad: bool, ghost e: Decoding)
    requires Agrees(st, copy, d)
    modifies copy.targetRatio, copy.kompressModel, copy.savingsProfile
    ensures e == Step(d, key, t) && Agrees(st, next, e) && (d.bad || bad) == e.bad
    ensures next.targetRatio != null && next.targetRatio != copy.targetRatio ==> fresh(next.targetRatio)
    ensures next.kompressModel != null && next.kompressModel != copy.kompressModel ==> fresh(next.kompressModel)
    ensures next.savingsProfile != null && next.savingsProfile != copy.savingsProfile ==> fresh(next.savingsProfile)
  {
    if IsString(key) {
      next, bad, e := DecodeString(st, copy, key, t, d);
    } else {
      next, bad, e := DecodeOther(st, copy, key, t, d);
    }
  }

  /** A field that is not a pointer leaves pointers, and the current settings, alone. */
  lemma PlainStep(d: Decoding, key: Key, t: Token)
    requires !key.TargetRatio? && !key.KompressModel? && !key.SavingsProfile?
    ensures Step(d, key, t).cur == d.cur && Step(d, key, t).shares == d.shares
    ensures Step(d, key, t).merged.targetRatio == d.merged.targetRatio
    ensures Step(d, key, t).merged.kompressModel == d.merged.kompressModel
    ensures Step(d, key, t).merged.savingsProfile == d.merged.savingsProfile
  {
  }

  /** A field that is not a pointer; null is ignored. */
  method DecodePlain(copy: Struct, key: Key, t: Token, ghost d: Decoding) returns (next: Struct, bad: bool)
    requires !key.TargetRatio? && !key.KompressModel? && !key.SavingsProfile?
    requires PlainAgrees(copy, d.merged)
    ensures next == copy.(compressUserMessages := next.compressUserMessages,
                          compressSystemMessages := next.compressSystemMessages,
                          protectRecent := next.protectRecent,
                          protectAnalysisContext := next.protectAnalysisContext,
                          minTokensToCompress := next.minTokensToCompress)
    ensures PlainAgrees(next, Step(d, key, t).merged)
    ensures (d.bad || bad) == Step(d, key, t).bad
  {
    next, bad := copy, false;
    match key
    case CompressUserMessages =>
      if t.Bool? { next := copy.(compressUserMessages := t.b); } else { bad := !t.Null?; }
    case CompressSystemMessages =>
      if t.Bool? { next := copy.(compressSystemMessages := t.b); } else { bad := !t.Null?; }
    case ProtectAnalysisContext =>
      if t.Bool? { next := copy.(protectAnalysisContext := t.b); } else { bad := !t.Null?; }
    case ProtectRecent =>
      if t.Int? && IsInt(t.n) { next := copy.(protectRecent := t.n); } else { bad := !t.Null?; }
    case MinTokensToCompress =>
      if t.Int? && IsInt(t.n) { next := copy.(minTokensToCompress := t.n); } else { bad := !t.Null?; }
    case Unknown =>
  }

  /** json.Unmarshal of an object onto `st` copied. */
  method UnmarshalFields(st: Struct, fields: Fields) returns (copy: Struct, failed: bool)
    requires Separate(st)
    modifies st.targetRatio, st.kompressModel, st.savingsProfile
    ensures Agrees(st, copy, Decode(Begin(old(View(st))), fields))
    ensures failed == Decode(Begin(old(View(st))), fields).bad
    ensures copy.targetRatio != null && copy.targetRatio != st.targetRatio ==> fresh(copy.targetRatio)
    ensures copy.kompressModel != null && copy.kompressModel != st.kompressModel ==> fresh(copy.kompressModel)
    ensures copy.savingsProfile != null && copy.savingsProfile != st.savingsProfile ==> fresh(copy.savingsProfile)
  {
    copy, failed := st, false;
    ghost var begin := Begin(View(st));
    for n := 0 to |fields|
      invariant Agrees(st, copy, Decode(begin, fields[..n]))
      invariant failed == Decode(begin, fields[..n]).bad
      invariant copy.targetRatio != null && copy.targetRatio != st.targetRatio ==> fresh(copy.targetRatio)
      invariant copy.kompressModel != null && copy.kompressModel != st.kompressModel ==> fresh(copy.kompressModel)
      invariant copy.savingsProfile != null && copy.savingsProfile != st.savingsProfile ==> fresh(copy.savingsProfile)
    {
      assert fields[..n + 1] == fields[..n] + [fields[n]];
      DecodeSnoc(begin, fields[..n], fields[n].0, fields[n].1);
      var bad;
      ghost var e;
      copy, bad, e := DecodeField(st, copy, fields[n].0, fields[n].1, Decode(begin, fields[..n]));
      failed := failed || bad;
    }
    assert fields[..|fields|] == fields;
  }

  /** json.Unmarshal of a body onto `st` copied, for a struct nobody else decodes
      onto meanwhile: what it leaves in the copy, and in `st`. */
  method Unmarshal(st: Struct, body: Body) returns (copy: Struct, failed: bool)
    requires Separate(st)
    modifies st.targetRatio, st.kompressModel, st.savingsProfile
    ensures View(copy) == DecodeBody(old(View(st)), body).merged && Separate(copy)
    ensures View(st) == DecodeBody(old(View(st)), body).cur
    ensures SharedCells(copy, st) == DecodeBody(old(View(st)), body).shares
    ensures failed == DecodeBody(old(View(st)), body).bad
    ensures failed <==> !Decodes(body)
    ensures View(copy) == FieldByField(old(View(st)), Assigned(body))
    ensures copy.targetRatio != null && copy.targetRatio != st.targetRatio ==> fresh(copy.targetRatio)
    ensures copy.kompressModel != null && copy.kompressModel != st.kompressModel ==> fresh(copy.kompressModel)
    ensures copy.savingsProfile != null && copy.savingsProfile != st.savingsProfile ==> fresh(copy.savingsProfile)
  {
    copy, failed := st, false;
    AcceptableExactly(View(st), body);
    match body
    case Malformed => failed := true;
    case NotAnObject => failed := true;
    case NullBody =>
    case Object(fields) => copy, failed := UnmarshalFields(st, fields);
  }

  /** The same, with what a struct got earlier then shows. */
  method UnmarshalShowing(st: Struct, body: Body, ghost held: Struct)
    returns (copy: Struct, failed: bool, ghost d: Decoding)
    requires Separate(st) && Snapshot(held, st)
    modifies st.targetRatio, st.kompressModel, st.savingsProfile
    ensures d == DecodeBody(old(View(st)), body)
    ensures View(copy) == d.merged && Separate(copy) && View(st) == d.cur && failed == d.bad
    ensures SharedCells(copy, st) == d.shares
    ensures copy.targetRatio != null && copy.targetRatio != st.targetRatio ==> fresh(copy.targetRatio)
    ensures copy.kompressModel != null && copy.kompressModel != st.kompressModel ==> fresh(copy.kompressModel)
    ensures copy.savingsProfile != null && copy.savingsProfile != st.savingsProfile ==> fresh(copy.savingsProfile)
    ensures View(held) == Tracks(old(View(held)), SharedCells(held, st), d.cur)
  {
    d := DecodeBody(View(st), body);
    copy, failed := Unmarshal(st, body);
  }

  /** `held` shares with `now` what it shared with `was` and was kept. */
  predicate SharesLeft(held: Struct, was: Struct, now: Struct, kept: Shares) {
    && IsShared(held.targetRatio, now.targetRatio) == (IsShared(held.targetRatio, was.targetRatio) && kept.ratio)
    && IsShared(held.kompressModel, now.kompressModel)
       == (IsShared(held.kompressModel, was.kompressModel) && kept.model)
    && IsShared(held.savingsProfile, now.savingsProfile)
       == (IsShared(held.savingsProfile, was.savingsProfile) && kept.profile)
  }

  /** A pointer of a copy that is not the original's is not `other` either. */
  predicate NewTo<T>(p: Cell?<T>, was: Cell?<T>, other: Cell?<T>) { p != null && p != was ==> p != other }

  lemma NewCellsShareNothing(held: Struct, was: Struct, now: Struct)
    requires Snapshot(held, was)
    requires NewTo(now.targetRatio, was.targetRatio, held.targetRatio)
    requires NewTo(now.kompressModel, was.kompressModel, held.kompressModel)
    requires NewTo(now.kompressModel, was.kompressModel, held.savingsProfile)
    requires NewTo(now.savingsProfile, was.savingsProfile, held.savingsProfile)
    requires NewTo(now.savingsProfile, was.savingsProfile, held.kompressModel)
    ensures Snapshot(held, now) && SharesLeft(held, was, now, SharedCells(now, was))
  {
  }

  /** And with what it still shares with the copy. */
  method UnmarshalUnder(st: Struct, body: Body, ghost held: Struct)
    returns (copy: Struct, failed: bool, ghost d: Decoding)
    requires Separate(st) && Snapshot(held, st)
    modifies st.targetRatio, st.kompressModel, st.savingsProfile
    ensures d == DecodeBody(old(View(st)), body)
    ensures View(copy) == d.merged && Separate(copy) && View(st) == d.cur && failed == d.bad
    ensures View(held) == Tracks(old(View(held)), SharedCells(held, st), d.cur)
    ensures Snapshot(held, copy) && SharesLeft(held, st, copy, d.shares)
  {
    copy, failed, d := UnmarshalShowing(st, body, held);
    NewCellsShareNothing(held, st, copy);
  }

  datatype Outcome = Applied(settings: Settings) | Rejected | NotPersisted

  class Store {
    var cur: Struct
    var disk: Disk
    const path: string

    ghost predicate Valid()
      reads this, cur.targetRatio, cur.kompressModel, cur.savingsProfile
    {
      Separate(cur) && Fits(View(cur))
    }

    /** Outside the lock a restart would come back with what is in memory. */
    ghost predicate Durable()
      reads this, cur.targetRatio, cur.kompressModel, cur.savingsProfile
    {
      path != "" ==> Load(path, disk) == View(cur) && SettingsValues.Valid(View(cur))
    }

    /** loadSettings. */
    constructor (path: string, disk: Disk)
      ensures Valid() && this.path == path && this.disk == disk
      ensures View(cur) == Load(path, disk) && Durable()
    {
      this.path := path;
      this.disk := disk;
      cur := Struct(false, true, 4, true, null, 250, null, null);
      new;
      LoadedIsValid(path, disk);
      if path != "" && disk.File? {
        var zero := Struct(false, false, 0, false, null, 0, null, null);
        var loaded, failed := Unmarshal(zero, disk.body);
        if !failed && SettingsValues.Valid(View(loaded)) {
          cur := loaded;
        }
      }
    }

    /** get: a copy of the struct, whose nullable fields are still the current cells. */
    method Get() returns (st: Struct)
      requires Valid()
      ensures View(st) == View(cur)
      ensures Snapshot(st, cur) && SharedCells(st, cur) == OwnCells(View(cur))
    {
      st := cur;
    }

    /** save: the file is replaced whole, or not at all when the write fails. */
    method Save(s: Settings, writeFails: bool) returns (ok: bool)
      modifies this`disk
      ensures ok <==> path == "" || !writeFails
      ensures disk == if path != "" && ok then File(Object(Encode(s))) else old(disk)
    {
      if path == "" {
        return true;
      }
      if writeFails {
        return false;
      }
      disk := File(Object(Encode(s)));
      return true;
    }

    /** applyLocked: validate, persist, swap. */
    method ApplyLocked(st: Struct, writeFails: bool) returns (outcome: Outcome)
      requires Fits(View(st))
      modifies this`cur, this`disk
      ensures View(st) == old(View(st))
      ensures outcome.Rejected? <==> !SettingsValues.Valid(View(st))
      ensures outcome.NotPersisted? <==> SettingsValues.Valid(View(st)) && path != "" && writeFails
      ensures outcome.Applied? ==> outcome.settings == View(st) && cur == st
      ensures outcome.Applied? ==> (path != "" ==> disk == File(Object(Encode(View(st)))))
      ensures !outcome.Applied? ==> cur == old(cur) && disk == old(disk)
      ensures path == "" ==> disk == old(disk)
    {
      if !SettingsValues.Valid(View(st)) {
        return Rejected;
      }
      var saved := Save(View(st), writeFails);
      if !saved {
        return NotPersisted;
      }
      cur := st;
      return Applied(View(st));
    }

    /** set, of any struct. */
    method Set(st: Struct, writeFails: bool) returns (outcome: Outcome)
      requires Valid() && Fits(View(st))
      modifies this`cur, this`disk
      ensures Valid() <==> !outcome.Applied? || Separate(st)
      ensures outcome.Applied? <==> SettingsValues.Valid(old(View(st))) && (path == "" || !writeFails)
      ensures outcome.Applied? ==> View(cur) == old(View(st)) && Durable()
      ensures !outcome.Applied? ==> View(cur) == old(View(cur)) && disk == old(disk)
      ensures old(Durable()) ==> Durable()
    {
      outcome := ApplyLocked(st, writeFails);
      if outcome.Applied? && path != "" {
        LoadAfterSave(path, View(cur));
      }
    }

    /** merge: decode onto a shallow copy of the current struct, then apply. `held` is
        any struct got before. */
    method Merge(body: Body, writeFails: bool, ghost held: Struct) returns (outcome: Outcome)
      requires Valid() && Snapshot(held, cur)
      modifies this, cur.targetRatio, cur.kompressModel, cur.savingsProfile
      ensures Valid() && Snapshot(held, cur)
      ensures outcome.Applied? <==> Acceptable(old(View(cur)), body) && (path == "" || !writeFails)
      ensures outcome.Rejected? <==> !Acceptable(old(View(cur)), body)
      ensures body.Malformed? || body.NotAnObject? ==> outcome.Rejected? && View(cur) == old(View(cur))
      ensures outcome.Applied? ==>
                && View(cur) == DecodeBody(old(View(cur)), body).merged == outcome.settings
                && (path != "" ==> disk == File(Object(Encode(View(cur)))))
      ensures !outcome.Applied? ==> cur == old(cur) && disk == old(disk)
      ensures View(old(cur)) == DecodeBody(old(View(cur)), body).cur
      ensures View(held) == Tracks(old(View(held)), SharedCells(held, old(cur)), DecodeBody(old(View(cur)), body).cur)
      ensures outcome.Applied? ==> SharesLeft(held, old(cur), cur, DecodeBody(old(View(cur)), body).shares)
    {
      var merged, failed, d := UnmarshalUnder(cur, body, held);
      MergedFits(old(View(cur)), body);
      outcome := Rejected;
      if !failed {
        outcome := ApplyLocked(merged, writeFails);
      }
    }

    /** A PUT to the store. One that is applied is durable; one that is not leaves the
        disk and the current struct alone. Whatever its outcome, the settings as they
        were, in the hands of whoever has got them, stay what they were exactly when
        its body is harmless; and a struct got earlier still shows exactly what it
        showed, or what the shared cells now hold. */
    method Put(body: Body, writeFails: bool, ghost held: Struct) returns (outcome: Outcome)
      requires Valid() && Snapshot(held, cur)
      modifies this, cur.targetRatio, cur.kompressModel, cur.savingsProfile
      ensures Valid() && Snapshot(held, cur)
      ensures outcome.Applied? ==>
                && Durable() && outcome.settings == View(cur)
                && View(cur) == FieldByField(old(View(cur)), Assigned(body))
      ensures outcome.Rejected? <==>
                !Decodes(body) || !SettingsValues.Valid(FieldByField(old(View(cur)), Assigned(body)))
      ensures outcome.NotPersisted? <==> !outcome.Rejected? && path != "" && writeFails
      ensures body.Malformed? || body.NotAnObject? ==>
                outcome.Rejected? && View(cur) == old(View(cur)) && disk == old(disk)
      ensures !outcome.Applied? ==> cur == old(cur) && disk == old(disk)
      ensures View(old(cur)) == old(View(cur)) <==> Harmless(old(View(cur)), body)
      ensures View(held) == Tracks(old(View(held)), SharedCells(held, old(cur)), DecodeBody(old(View(cur)), body).cur)
      ensures outcome.Applied? ==> SharesLeft(held, old(cur), cur, DecodeBody(old(View(cur)), body).shares)
      ensures old(Durable()) && Harmless(old(View(cur)), body) ==> Durable()
    {
      ghost var before := View(cur);
      HarmlessExactly(before, body);
      AcceptableExactly(before, body);
      outcome := Merge(body, writeFails, held);
      if outcome.Applied? && path != "" {
        MergedFits(before, body);
        LoadAfterSave(path, View(cur));
      }
    }
  }

  lemma MergedFits(s: Settings, body: Body)
    requires Fits(s)
    ensures Fits(DecodeBody(s, body).merged) && Fits(DecodeBody(s, body).cur)
  {
    if body.Object? {
      DecodeFits(Begin(s), body.fields);
    }
  }

  /** A rejected PUT that does change the settings in memory: target_ratio is 0.3 and
      a PUT sets it to 9. The answer is an error and the file still says 0.3, but the
      current settings now say 9, which is not even valid. */
  lemma RejectedPutLeaks()
    ensures var s := DEFAULTS.(targetRatio := Some(0.3));
            var body := Object([(TargetRatio, Int(9))]);
            && Valid(s) && !Acceptable(s, body)
            && DecodeBody(s, body).cur == DEFAULTS.(targetRatio := Some(9.0))
            && !Valid(DecodeBody(s, body).cur)
  {
    var s := DEFAULTS.(targetRatio := Some(0.3));
    var fields := [(TargetRatio, Int(9))];
    assert fields[..0] == [];
    assert Decode(Begin(s), fields) == Step(Begin(s), TargetRatio, Int(9));
  }
}
