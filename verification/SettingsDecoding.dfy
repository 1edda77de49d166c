/** Decoding a JSON body onto a settings struct, as values (config.go merge,
    loadSettings). A decode that starts from a shallow copy of the current struct
    shares the cells of its nullable fields with it, and JSON decoding writes
    through a non-nil pointer; so the value of the current struct is part of the
    result. */
module SettingsDecoding {
  import opened SettingsValues
  import opened Wrappers

  /** The struct field a key names; other keys are ignored. */
  datatype Key =
    | CompressUserMessages | CompressSystemMessages | ProtectRecent | ProtectAnalysisContext
    | TargetRatio | MinTokensToCompress | KompressModel | SavingsProfile | Unknown

  /** A JSON value as the decoder meets it. `Odd` is one that fits no field: an
      array, an object, or a number no float64 can hold. */
  datatype Token = Null | Bool(b: bool) | Int(n: int) | Real(r: real) | Str(s: string) | Odd

  type Fields = seq<(Key, Token)>

  datatype Body = Malformed | NotAnObject | NullBody | Object(fields: Fields)

  const INT_MIN := -0x8000_0000_0000_0000
  const INT_MAX := 0x7fff_ffff_ffff_ffff

  predicate IsInt(n: int) { INT_MIN <= n <= INT_MAX }

  /** Settings a Go struct can hold. */
  predicate Fits(s: Settings) { IsInt(s.protectRecent) && IsInt(s.minTokensToCompress) }

  datatype Shares = Shares(ratio: bool, model: bool, profile: bool)

  /** `merged` is the copy being decoded onto, `cur` the current settings as seen
      through the current struct, `shares` which cells the two still share. */
  datatype Decoding = Decoding(merged: Settings, cur: Settings, shares: Shares, bad: bool)

  function Begin(s: Settings): Decoding {
    Decoding(s, s, Shares(s.targetRatio.Some?, s.kompressModel.Some?, s.savingsProfile.Some?), false)
  }

  function AsBool(t: Token): Option<bool> {
    if t.Bool? then Some(t.b) else None
  }

  function AsInt(t: Token): Option<int> {
    if t.Int? && IsInt(t.n) then Some(t.n) else None
  }

  function AsReal(t: Token): Option<real> {
    match t
    case Int(n) => Some(n as real)
    case Real(r) => Some(r)
    case _ => None
  }

  function AsStr(t: Token): Option<string> {
    if t.Str? then Some(t.s) else None
  }

  /** A decode error is noted; decoding goes on with the next field. */
  function Step(d: Decoding, key: Key, t: Token): Decoding {
    match key
    case CompressUserMessages =>
      BoolStep(d, t, d.merged.(compressUserMessages := if t.Bool? then t.b else d.merged.compressUserMessages))
    case CompressSystemMessages =>
      BoolStep(d, t, d.merged.(compressSystemMessages := if t.Bool? then t.b else d.merged.compressSystemMessages))
    case ProtectAnalysisContext =>
      BoolStep(d, t, d.merged.(protectAnalysisContext := if t.Bool? then t.b else d.merged.protectAnalysisContext))
    case ProtectRecent =>
      IntStep(d, t, d.merged.(protectRecent := if t.Int? then t.n else d.merged.protectRecent))
    case MinTokensToCompress =>
      IntStep(d, t, d.merged.(minTokensToCompress := if t.Int? then t.n else d.merged.minTokensToCompress))
    case TargetRatio => (
      var (mine, theirs, shared, bad) :=
        PointerStep(d.merged.targetRatio, d.cur.targetRatio, d.shares.ratio, t, AsReal(t), 0.0);
      Decoding(d.merged.(targetRatio := mine), d.cur.(targetRatio := theirs),
               d.shares.(ratio := shared), d.bad || bad))
    case KompressModel => (
      var (mine, theirs, shared, bad) :=
        PointerStep(d.merged.kompressModel, d.cur.kompressModel, d.shares.model, t, AsStr(t), "");
      Decoding(d.merged.(kompressModel := mine), d.cur.(kompressModel := theirs),
               d.shares.(model := shared), d.bad || bad))
    case SavingsProfile => (
      var (mine, theirs, shared, bad) :=
        PointerStep(d.merged.savingsProfile, d.cur.savingsProfile, d.shares.profile, t, AsStr(t), "");
      Decoding(d.merged.(savingsProfile := mine), d.cur.(savingsProfile := theirs),
               d.shares.(profile := shared), d.bad || bad))
    case Unknown => d
  }

  function BoolStep(d: Decoding, t: Token, set_: Settings): Decoding {
    if t.Bool? then d.(merged := set_) else if t.Null? then d else d.(bad := true)
  }

  function IntStep(d: Decoding, t: Token, set_: Settings): Decoding {
    if t.Int? && IsInt(t.n) then d.(merged := set_) else if t.Null? then d else d.(bad := true)
  }

  /** One assignment to a pointer field: null drops the pointer, a value is written
      through it (allocating first when it is nil), a misfit is an error that at most
      allocates a zero. */
  function PointerStep<T>(mine: Option<T>, theirs: Option<T>, shared: bool, t: Token, value: Option<T>, zero: T)
    : (Option<T>, Option<T>, bool, bool)
  {
    if t.Null? then (None, theirs, false, false)
    else if value.Some? then (value, if shared then value else theirs, shared, false)
    else (if mine.None? then Some(zero) else mine, theirs, shared, true)
  }

  function Decode(d: Decoding, fields: Fields): Decoding {
    if fields == [] then d
    else
      var before := Decode(d, fields[..|fields| - 1]);
      var last := fields[|fields| - 1];
      Step(before, last.0, last.1)
  }

  lemma DecodeSnoc(d: Decoding, fields: Fields, key: Key, t: Token)
    ensures Decode(d, fields + [(key, t)]) == Step(Decode(d, fields), key, t)
  {
    assert (fields + [(key, t)])[..|fields|] == fields;
  }

  /** The whole decode of a body from current settings s. */
  function DecodeBody(s: Settings, body: Body): Decoding {
    match body
    case Malformed => Begin(s).(bad := true)
    case NotAnObject => Begin(s).(bad := true)
    case NullBody => Begin(s)
    case Object(fields) => Decode(Begin(s), fields)
  }

  /** A PUT that gets as far as being saved. */
  predicate Acceptable(s: Settings, body: Body) {
    !DecodeBody(s, body).bad && Valid(DecodeBody(s, body).merged)
  }

  // ---------- When the current settings are left alone ----------

  /** The value a pointer field's old cell ends up with: the last one assigned before
      the first null, if any. */
  function WrittenThrough<T>(fields: Fields, key: Key, value: Token -> Option<T>): Option<T> {
    if fields == [] then None
    else if fields[0].0 == key && fields[0].1.Null? then None
    else
      var later := WrittenThrough(fields[1..], key, value);
      if later.Some? then later
      else if fields[0].0 == key then value(fields[0].1) else None
  }

  predicate Leaves<T(==)>(current: Option<T>, fields: Fields, key: Key, value: Token -> Option<T>) {
    var written := WrittenThrough(fields, key, value);
    current.Some? && written.Some? ==> written == current
  }

  /** The body assigns to no non-null nullable field a value other than the one it has
      (before setting it to null). A caller can check this against a GET. */
  predicate Harmless(s: Settings, body: Body) {
    body.Object? ==>
      && Leaves(s.targetRatio, body.fields, TargetRatio, AsReal)
      && Leaves(s.kompressModel, body.fields, KompressModel, AsStr)
      && Leaves(s.savingsProfile, body.fields, SavingsProfile, AsStr)
  }

  predicate NullSeen(fields: Fields, key: Key) {
    exists k :: 0 <= k < |fields| && fields[k] == (key, Null)
  }

  lemma {:induction false} WrittenSnoc<T>(fields: Fields, k: Key, t: Token, key: Key, value: Token -> Option<T>)
    ensures WrittenThrough(fields + [(k, t)], key, value)
            == if k == key && !NullSeen(fields, key) && !t.Null? && value(t).Some? then value(t)
               else WrittenThrough(fields, key, value)
    decreases fields
  {
    var all := fields + [(k, t)];
    if fields == [] {
      assert all[1..] == [];
    } else {
      assert all[1..] == fields[1..] + [(k, t)];
      WrittenSnoc(fields[1..], k, t, key, value);
      assert NullSeen(fields, key) <==> fields[0] == (key, Null) || NullSeen(fields[1..], key) by {
        if NullSeen(fields, key) {
          var n :| 0 <= n < |fields| && fields[n] == (key, Null);
          if n > 0 { assert fields[1..][n - 1] == (key, Null); }
        }
        if NullSeen(fields[1..], key) {
          var n :| 0 <= n < |fields[1..]| && fields[1..][n] == (key, Null);
          assert fields[n + 1] == (key, Null);
        }
      }
    }
  }

  function Overwrite<T>(current: Option<T>, written: Option<T>): Option<T> {
    if current.Some? && written.Some? then written else current
  }

  /** The three nullable fields of s as cells overwritten with what is written. */
  function Overwritten(s: Settings, fields: Fields): Settings {
    s.(targetRatio := Overwrite(s.targetRatio, WrittenThrough(fields, TargetRatio, AsReal)),
       kompressModel := Overwrite(s.kompressModel, WrittenThrough(fields, KompressModel, AsStr)),
       savingsProfile := Overwrite(s.savingsProfile, WrittenThrough(fields, SavingsProfile, AsStr)))
  }

  function SharesAfter(s: Settings, fields: Fields): Shares {
    Shares(s.targetRatio.Some? && !NullSeen(fields, TargetRatio),
           s.kompressModel.Some? && !NullSeen(fields, KompressModel),
           s.savingsProfile.Some? && !NullSeen(fields, SavingsProfile))
  }

  function Through<T>(mine: bool, shared: bool, value: Option<T>, current: Option<T>): Option<T> {
    if mine && shared && value.Some? then value else current
  }

  /** The effect of one field on the current settings and on what is shared. */
  lemma StepOnCurrent(d: Decoding, key: Key, t: Token)
    ensures Step(d, key, t).cur
            == d.cur.(targetRatio := Through(key.TargetRatio?, d.shares.ratio, AsReal(t), d.cur.targetRatio),
                      kompressModel := Through(key.KompressModel?, d.shares.model, AsStr(t), d.cur.kompressModel),
                      savingsProfile := Through(key.SavingsProfile?, d.shares.profile, AsStr(t), d.cur.savingsProfile))
    ensures Step(d, key, t).shares
            == Shares(d.shares.ratio && !(key.TargetRatio? && t.Null?),
                      d.shares.model && !(key.KompressModel? && t.Null?),
                      d.shares.profile && !(key.SavingsProfile? && t.Null?))
  {
  }

  /** What the current settings look like after the decode, field by field. */
  lemma {:induction false} DecodeWritesThrough(s: Settings, fields: Fields)
    ensures Decode(Begin(s), fields).cur == Overwritten(s, fields)
    ensures Decode(Begin(s), fields).shares == SharesAfter(s, fields)
  {
    if fields != [] {
      var before := fields[..|fields| - 1];
      var (k, t) := fields[|fields| - 1];
      DecodeWritesThrough(s, before);
      StepOnCurrent(Decode(Begin(s), before), k, t);
      assert fields == before + [(k, t)];
      WrittenSnoc(before, k, t, TargetRatio, AsReal);
      WrittenSnoc(before, k, t, KompressModel, AsStr);
      WrittenSnoc(before, k, t, SavingsProfile, AsStr);
      NullSnoc(before, k, t, TargetRatio);
      NullSnoc(before, k, t, KompressModel);
      NullSnoc(before, k, t, SavingsProfile);
    }
  }

  lemma NullSnoc(fields: Fields, k: Key, t: Token, key: Key)
    ensures NullSeen(fields + [(k, t)], key) <==> NullSeen(fields, key) || (k == key && t.Null?)
  {
    var all := fields + [(k, t)];
    assert all[|fields|] == (k, t);
    if NullSeen(fields, key) {
      var n :| 0 <= n < |fields| && fields[n] == (key, Null);
      assert all[n] == (key, Null);
    }
  }

  /** Decoding leaves the current settings as they are exactly when the body is
      harmless. */
  lemma HarmlessExactly(s: Settings, body: Body)
    ensures DecodeBody(s, body).cur == s <==> Harmless(s, body)
  {
    if body.Object? {
      DecodeWritesThrough(s, body.fields);
    }
  }

  /** A pointer still shared is the same cell on both sides. */
  predicate SharedAgree(d: Decoding) {
    && (d.shares.ratio ==> d.merged.targetRatio == d.cur.targetRatio && d.cur.targetRatio.Some?)
    && (d.shares.model ==> d.merged.kompressModel == d.cur.kompressModel && d.cur.kompressModel.Some?)
    && (d.shares.profile ==> d.merged.savingsProfile == d.cur.savingsProfile && d.cur.savingsProfile.Some?)
  }

  lemma StepAgrees(d: Decoding, key: Key, t: Token)
    requires SharedAgree(d)
    ensures SharedAgree(Step(d, key, t))
  {
  }

  lemma {:induction false} DecodeAgrees(d: Decoding, fields: Fields)
    requires SharedAgree(d)
    ensures SharedAgree(Decode(d, fields))
  {
    if fields != [] {
      var before := fields[..|fields| - 1];
      DecodeAgrees(d, before);
      StepAgrees(Decode(d, before), fields[|fields| - 1].0, fields[|fields| - 1].1);
    }
  }

  // ---------- What an update makes of each field ----------

  /** A plain field ends with the last value for it that fits, if any. */
  function LastPlain<T>(current: T, fields: Fields, key: Key, value: Token -> Option<T>): T {
    if fields == [] then current
    else
      var (k, t) := fields[|fields| - 1];
      if k == key && value(t).Some? then value(t).value
      else LastPlain(current, fields[..|fields| - 1], key, value)
  }

  /** A nullable field: null drops what was there, a misfit at most allocates a zero. */
  function LastPointer<T>(current: Option<T>, zero: T, fields: Fields, key: Key, value: Token -> Option<T>): Option<T> {
    if fields == [] then current
    else
      var (k, t) := fields[|fields| - 1];
      var before := LastPointer(current, zero, fields[..|fields| - 1], key, value);
      if k != key then before
      else if t.Null? then None
      else if value(t).Some? then value(t)
      else if before.None? then Some(zero)
      else before
  }

  function FieldByField(s: Settings, fields: Fields): Settings {
    Settings(
      LastPlain(s.compressUserMessages, fields, CompressUserMessages, AsBool),
      LastPlain(s.compressSystemMessages, fields, CompressSystemMessages, AsBool),
      LastPlain(s.protectRecent, fields, ProtectRecent, AsInt),
      LastPlain(s.protectAnalysisContext, fields, ProtectAnalysisContext, AsBool),
      LastPointer(s.targetRatio, 0.0, fields, TargetRatio, AsReal),
      LastPlain(s.minTokensToCompress, fields, MinTokensToCompress, AsInt),
      LastPointer(s.kompressModel, "", fields, KompressModel, AsStr),
      LastPointer(s.savingsProfile, "", fields, SavingsProfile, AsStr))
  }

  function Plain<T>(current: T, mine: bool, value: Option<T>): T {
    if mine && value.Some? then value.value else current
  }

  lemma StepOnPlain(d: Decoding, key: Key, t: Token)
    ensures var m, n := d.merged, Step(d, key, t).merged;
            && n.compressUserMessages == Plain(m.compressUserMessages, key.CompressUserMessages?, AsBool(t))
            && n.compressSystemMessages == Plain(m.compressSystemMessages, key.CompressSystemMessages?, AsBool(t))
            && n.protectRecent == Plain(m.protectRecent, key.ProtectRecent?, AsInt(t))
            && n.protectAnalysisContext == Plain(m.protectAnalysisContext, key.ProtectAnalysisContext?, AsBool(t))
            && n.minTokensToCompress == Plain(m.minTokensToCompress, key.MinTokensToCompress?, AsInt(t))
  {
  }

  function Pointer<T>(current: Option<T>, mine: bool, t: Token, value: Option<T>, zero: T): Option<T> {
    if !mine then current
    else if t.Null? then None
    else if value.Some? then value
    else if current.None? then Some(zero)
    else current
  }

  lemma StepOnPointers(d: Decoding, key: Key, t: Token)
    ensures var m, n := d.merged, Step(d, key, t).merged;
            && n.targetRatio == Pointer(m.targetRatio, key.TargetRatio?, t, AsReal(t), 0.0)
            && n.kompressModel == Pointer(m.kompressModel, key.KompressModel?, t, AsStr(t), "")
            && n.savingsProfile == Pointer(m.savingsProfile, key.SavingsProfile?, t, AsStr(t), "")
  {
  }

  /** An update acts on each field by itself. */
  lemma {:induction false} DecodesFieldByField(s: Settings, fields: Fields)
    ensures Decode(Begin(s), fields).merged == FieldByField(s, fields)
  {
    if fields != [] {
      var before := fields[..|fields| - 1];
      var (k, t) := fields[|fields| - 1];
      DecodesFieldByField(s, before);
      StepOnPlain(Decode(Begin(s), before), k, t);
      StepOnPointers(Decode(Begin(s), before), k, t);
    }
  }

  /** A token that cannot be stored in the field of this key. null fits any field, and
      anything fits a key that is no field. */
  predicate Misfit(key: Key, t: Token) {
    match key
    case CompressUserMessages => !t.Null? && !t.Bool?
    case CompressSystemMessages => !t.Null? && !t.Bool?
    case ProtectAnalysisContext => !t.Null? && !t.Bool?
    case ProtectRecent => !t.Null? && !(t.Int? && INT_MIN <= t.n <= INT_MAX)
    case MinTokensToCompress => !t.Null? && !(t.Int? && INT_MIN <= t.n <= INT_MAX)
    case TargetRatio => !t.Null? && !t.Int? && !t.Real?
    case KompressModel => !t.Null? && !t.Str?
    case SavingsProfile => !t.Null? && !t.Str?
    case Unknown => false
  }

  lemma StepNotesMisfit(d: Decoding, key: Key, t: Token)
    ensures Step(d, key, t).bad <==> d.bad || Misfit(key, t)
  {
  }

  /** A decode is in error exactly when some token does not fit its field. */
  lemma {:induction false} BadExactly(s: Settings, fields: Fields)
    ensures Decode(Begin(s), fields).bad <==> exists k :: 0 <= k < |fields| && Misfit(fields[k].0, fields[k].1)
  {
    if fields != [] {
      var n := |fields| - 1;
      BadExactly(s, fields[..n]);
      StepNotesMisfit(Decode(Begin(s), fields[..n]), fields[n].0, fields[n].1);
      if k :| 0 <= k < n && Misfit(fields[k].0, fields[k].1) {
        assert fields[..n][k] == fields[k];
      }
    }
  }

  /** The body is null, or an object all of whose tokens fit. */
  predicate Decodes(body: Body) {
    || body.NullBody?
    || (body.Object? && forall k :: 0 <= k < |body.fields| ==> !Misfit(body.fields[k].0, body.fields[k].1))
  }

  function Assigned(body: Body): Fields { if body.Object? then body.fields else [] }

  /** An update gets as far as being saved exactly when its body decodes and what it
      makes of each field is valid; that is then the new settings. */
  lemma AcceptableExactly(s: Settings, body: Body)
    ensures !DecodeBody(s, body).bad <==> Decodes(body)
    ensures DecodeBody(s, body).merged == FieldByField(s, Assigned(body))
    ensures Acceptable(s, body) <==> Decodes(body) && Valid(FieldByField(s, Assigned(body)))
    ensures body.Malformed? || body.NotAnObject? ==> !Acceptable(s, body) && DecodeBody(s, body).cur == s
  {
    if body.Object? { BadExactly(s, body.fields); }
    DecodesFieldByField(s, Assigned(body));
  }

  lemma AloneInBody(s: Settings, key: Key, t: Token)
    ensures Acceptable(s, Object([(key, t)])) <==> !Misfit(key, t) && Valid(Step(Begin(s), key, t).merged)
  {
    assert [(key, t)][..0] == [];
    assert Decode(Begin(s), [(key, t)]) == Step(Begin(s), key, t);
    StepNotesMisfit(Begin(s), key, t);
  }

  /** The values a PUT of one field that is not nullable may give it. */
  lemma AcceptedPlain(s: Settings, b: bool, n: int)
    requires Valid(s)
    ensures Acceptable(s, Object([(CompressUserMessages, Bool(b))]))
    ensures Acceptable(s, Object([(CompressSystemMessages, Bool(b))]))
    ensures Acceptable(s, Object([(ProtectAnalysisContext, Bool(b))]))
    ensures Acceptable(s, Object([(ProtectRecent, Int(n))])) <==> 0 <= n <= 0x7fff_ffff_ffff_ffff
    ensures Acceptable(s, Object([(MinTokensToCompress, Int(n))])) <==> 0 <= n <= 0x7fff_ffff_ffff_ffff
  {
    AloneInBody(s, CompressUserMessages, Bool(b));
    AloneInBody(s, CompressSystemMessages, Bool(b));
    AloneInBody(s, ProtectAnalysisContext, Bool(b));
    AloneInBody(s, ProtectRecent, Int(n));
    AloneInBody(s, MinTokensToCompress, Int(n));
  }

  /** And a nullable one. */
  lemma AcceptedNullable(s: Settings, n: int, r: real, text: string)
    requires Valid(s)
    ensures Acceptable(s, Object([(TargetRatio, Real(r))])) <==> 0.0 < r <= 1.0
    ensures Acceptable(s, Object([(TargetRatio, Int(n))])) <==> n == 1
    ensures Acceptable(s, Object([(KompressModel, Str(text))])) <==> text != ""
    ensures Acceptable(s, Object([(SavingsProfile, Str(text))])) <==> text == "agent-90" || text == "balanced"
  {
    AloneInBody(s, TargetRatio, Real(r));
    AloneInBody(s, TargetRatio, Int(n));
    AloneInBody(s, KompressModel, Str(text));
    AloneInBody(s, SavingsProfile, Str(text));
  }

  lemma {:induction false} PointerUntouched<T>(
    current: Option<T>, zero: T, fields: Fields, key: Key, value: Token -> Option<T>)
    requires forall n :: 0 <= n < |fields| ==> fields[n].0 != key
    ensures LastPointer(current, zero, fields, key, value) == current
  {
    if fields != [] {
      assert fields[|fields| - 1].0 != key;
      PointerUntouched(current, zero, fields[..|fields| - 1], key, value);
    }
  }

  // ---------- Settings that fail validation ----------

  /** The settings fail validation because of this nullable field. */
  predicate Spoilt(s: Settings, key: Key) {
    match key
    case TargetRatio => s.targetRatio.Some? && !GoodRatio(s.targetRatio.value)
    case KompressModel => s.kompressModel.Some? && !GoodModel(s.kompressModel.value)
    case SavingsProfile => s.savingsProfile.Some? && !GoodProfile(s.savingsProfile.value)
    case _ => false
  }

  /** A cell that holds something is given a bad value. */
  predicate SpoilsCell<T>(current: Option<T>, written: Option<T>, good: T -> bool) {
    current.Some? && written.Some? && !good(written.value)
  }

  /** The body gives this field, not null in s, a bad value, whatever it assigns after
      setting it to null. A caller can check this against a GET. */
  predicate Spoils(s: Settings, body: Body, key: Key) {
    body.Object? &&
    match key
    case TargetRatio =>
      SpoilsCell(s.targetRatio, WrittenThrough(body.fields, TargetRatio, AsReal), GoodRatio)
    case KompressModel =>
      SpoilsCell(s.kompressModel, WrittenThrough(body.fields, KompressModel, AsStr), GoodModel)
    case SavingsProfile =>
      SpoilsCell(s.savingsProfile, WrittenThrough(body.fields, SavingsProfile, AsStr), GoodProfile)
    case _ => false
  }

  predicate SpoilsSome(s: Settings, body: Body) {
    Spoils(s, body, TargetRatio) || Spoils(s, body, KompressModel) || Spoils(s, body, SavingsProfile)
  }

  /** Decoding onto valid settings leaves them spoilt exactly where the body spoils
      them, and wedged, so that an update that changes nothing is refused, exactly when
      it spoils any field. */
  lemma WedgesExactly(s: Settings, body: Body)
    requires Valid(s)
    ensures var after := DecodeBody(s, body).cur;
            && (forall key :: Spoilt(after, key) <==> Spoils(s, body, key))
            && (Valid(after) <==> !SpoilsSome(s, body))
            && (Acceptable(after, Object([])) <==> !SpoilsSome(s, body))
  {
    if body.Object? {
      DecodeWritesThrough(s, body.fields);
    }
  }

  /** The body does not assign this field. */
  predicate Spares(body: Body, key: Key) {
    body.Object? ==> forall n :: 0 <= n < |body.fields| ==> body.fields[n].0 != key
  }

  /** In that state every update that does not assign the field is refused. */
  lemma SpoiltWedges(s: Settings, body: Body, key: Key)
    requires Spoilt(s, key) && Spares(body, key)
    ensures !Acceptable(s, body)
  {
    if body.Object? {
      DecodesFieldByField(s, body.fields);
      if key.TargetRatio? { PointerUntouched(s.targetRatio, 0.0, body.fields, key, AsReal); }
      else if key.KompressModel? { PointerUntouched(s.kompressModel, "", body.fields, key, AsStr); }
      else { PointerUntouched(s.savingsProfile, "", body.fields, key, AsStr); }
    }
  }

  lemma {:induction false} NothingWritten<T>(fields: Fields, key: Key, value: Token -> Option<T>)
    requires forall n :: 0 <= n < |fields| ==> fields[n].0 != key
    ensures WrittenThrough(fields, key, value).None?
  {
    if fields != [] {
      assert fields[0].0 != key;
      NothingWritten(fields[1..], key, value);
    }
  }

  /** And while it is being decoded the field stays as bad as it was. */
  lemma SpoiltStays(s: Settings, fields: Fields, key: Key)
    requires Spoilt(s, key) && Spares(Object(fields), key)
    ensures Spoilt(Decode(Begin(s), fields).cur, key)
  {
    DecodeWritesThrough(s, fields);
    if key.TargetRatio? { NothingWritten(fields, key, AsReal); }
    else { NothingWritten(fields, key, AsStr); }
  }

  function Cleared(s: Settings, key: Key): Settings {
    match key
    case TargetRatio => s.(targetRatio := None)
    case KompressModel => s.(kompressModel := None)
    case SavingsProfile => s.(savingsProfile := None)
    case _ => s
  }

  /** Setting it to null gets the store out of that state, if it was the only fault. */
  lemma NullUnwedges(s: Settings, key: Key)
    ensures Acceptable(s, Object([(key, Null)])) <==> Valid(Cleared(s, key))
  {
    assert [(key, Null)][..0] == [];
    assert Decode(Begin(s), [(key, Null)]) == Step(Begin(s), key, Null);
  }

  // ---------- A snapshot held while updates go on ----------

  /** The cells of a struct, all its own. */
  function OwnCells(s: Settings): Shares { Begin(s).shares }

  /** What a held struct shows when some of its cells are the current struct's. */
  function Tracks(was: Settings, shared: Shares, cur: Settings): Settings {
    was.(targetRatio := if shared.ratio then cur.targetRatio else was.targetRatio,
         kompressModel := if shared.model then cur.kompressModel else was.kompressModel,
         savingsProfile := if shared.profile then cur.savingsProfile else was.savingsProfile)
  }

  function Both(a: Shares, b: Shares): Shares {
    Shares(a.ratio && b.ratio, a.model && b.model, a.profile && b.profile)
  }

  /** An update as a held struct meets it: the fields decoded before it was got, those
      after, and whether the update was applied. */
  datatype Update = Update(before: Fields, fields: Fields, applied: bool)

  /** What it writes to the cell the struct was got with. */
  function WrittenBy<T>(u: Update, key: Key, value: Token -> Option<T>): Option<T> {
    if NullSeen(u.before, key) then None else WrittenThrough(u.fields, key, value)
  }

  /** It puts another cell, or none, in place of the current one. */
  predicate Replaces(u: Update, key: Key) {
    u.applied && (NullSeen(u.before, key) || NullSeen(u.fields, key))
  }

  predicate ReplacedBy(us: seq<Update>, key: Key) {
    exists k :: 0 <= k < |us| && Replaces(us[k], key)
  }

  /** What a sequence of updates leaves in that cell: the last value written before an
      update that was applied replaced the cell. */
  function WrittenByAll<T>(us: seq<Update>, key: Key, value: Token -> Option<T>): Option<T> {
    if us == [] then None
    else
      var front := us[..|us| - 1];
      var last := WrittenBy(us[|us| - 1], key, value);
      if !ReplacedBy(front, key) && last.Some? then last else WrittenByAll(front, key, value)
  }

  predicate LeftBy<T(==)>(current: Option<T>, us: seq<Update>, key: Key, value: Token -> Option<T>) {
    var written := WrittenByAll(us, key, value);
    current.Some? && written.Some? ==> written == current
  }

  /** The updates since a struct was got leave its cells with the values it was got
      with. */
  predicate HarmlessSince(got: Settings, us: seq<Update>) {
    && LeftBy(got.targetRatio, us, TargetRatio, AsReal)
    && LeftBy(got.kompressModel, us, KompressModel, AsStr)
    && LeftBy(got.savingsProfile, us, SavingsProfile, AsStr)
  }

  function OverwrittenSince(got: Settings, us: seq<Update>): Settings {
    got.(targetRatio := Overwrite(got.targetRatio, WrittenByAll(us, TargetRatio, AsReal)),
         kompressModel := Overwrite(got.kompressModel, WrittenByAll(us, KompressModel, AsStr)),
         savingsProfile := Overwrite(got.savingsProfile, WrittenByAll(us, SavingsProfile, AsStr)))
  }

  /** The updates met leave a bad value in some cell the struct was got with. */
  predicate SpoiltSince(got: Settings, us: seq<Update>) {
    || SpoilsCell(got.targetRatio, WrittenByAll(us, TargetRatio, AsReal), GoodRatio)
    || SpoilsCell(got.kompressModel, WrittenByAll(us, KompressModel, AsStr), GoodModel)
    || SpoilsCell(got.savingsProfile, WrittenByAll(us, SavingsProfile, AsStr), GoodProfile)
  }

  /** One more update, met by a struct with these values: harmless to the cells that
      have not been replaced. */
  predicate HarmlessNext(got: Settings, us: seq<Update>, u: Update) {
    && (ReplacedBy(us, TargetRatio) || LeavesNext(got.targetRatio, u, TargetRatio, AsReal))
    && (ReplacedBy(us, KompressModel) || LeavesNext(got.kompressModel, u, KompressModel, AsStr))
    && (ReplacedBy(us, SavingsProfile) || LeavesNext(got.savingsProfile, u, SavingsProfile, AsStr))
  }

  predicate LeavesNext<T(==)>(current: Option<T>, u: Update, key: Key, value: Token -> Option<T>) {
    var written := WrittenBy(u, key, value);
    current.Some? && written.Some? ==> written == current
  }

  /** A struct stays as it was got until the first update that is not harmless to the
      cells it still shares, and that update changes it. */
  lemma FirstHarmChanges(got: Settings, us: seq<Update>, u: Update)
    requires HarmlessSince(got, us)
    ensures HarmlessSince(got, us + [u]) <==> HarmlessNext(got, us, u)
  {
    assert (us + [u])[..|us|] == us;
  }

  // ---------- The file ----------

  const ZERO := Settings(false, false, 0, false, None, 0, None, None)

  function Encode(s: Settings): Fields {
    [(CompressUserMessages, Bool(s.compressUserMessages)),
     (CompressSystemMessages, Bool(s.compressSystemMessages)),
     (ProtectRecent, Int(s.protectRecent)),
     (ProtectAnalysisContext, Bool(s.protectAnalysisContext)),
     (TargetRatio, if s.targetRatio.Some? then Real(s.targetRatio.value) else Null),
     (MinTokensToCompress, Int(s.minTokensToCompress)),
     (KompressModel, if s.kompressModel.Some? then Str(s.kompressModel.value) else Null),
     (SavingsProfile, if s.savingsProfile.Some? then Str(s.savingsProfile.value) else Null)]
  }

  /** Settings read back from what was written are the same settings. */
  lemma FileRoundTrip(s: Settings)
    requires Fits(s)
    ensures var d := Decode(Begin(ZERO), Encode(s)); d.merged == s && !d.bad
  {
    var f := Encode(s);
    var d0 := Begin(ZERO);
    var d1 := Step(d0, f[0].0, f[0].1);
    var d2 := Step(d1, f[1].0, f[1].1);
    var d3 := Step(d2, f[2].0, f[2].1);
    var d4 := Step(d3, f[3].0, f[3].1);
    var d5 := Step(d4, f[4].0, f[4].1);
    var d6 := Step(d5, f[5].0, f[5].1);
    var d7 := Step(d6, f[6].0, f[6].1);
    var d8 := Step(d7, f[7].0, f[7].1);
    DecodePrefixes(d0, f);
    assert Decode(d0, f[..0]) == d0;
    assert Decode(d0, f[..1]) == d1;
    assert Decode(d0, f[..2]) == d2;
    assert Decode(d0, f[..3]) == d3;
    assert Decode(d0, f[..4]) == d4;
    assert Decode(d0, f[..5]) == d5;
    assert Decode(d0, f[..6]) == d6;
    assert Decode(d0, f[..7]) == d7;
    assert f[..8] == f;
    assert d8.merged == s;
  }

  lemma DecodePrefixes(d: Decoding, fields: Fields)
    ensures forall n :: 0 <= n < |fields| ==>
              Decode(d, fields[..n + 1]) == Step(Decode(d, fields[..n]), fields[n].0, fields[n].1)
  {
    forall n | 0 <= n < |fields|
      ensures Decode(d, fields[..n + 1]) == Step(Decode(d, fields[..n]), fields[n].0, fields[n].1)
    {
      assert fields[..n + 1][..n] == fields[..n];
    }
  }

  /** What is at the store's path. */
  datatype Disk = Missing | Unreadable | File(body: Body)

  /** loadSettings: anything missing, unreadable, undecodable or invalid gives the
      defaults; a file is decoded onto zero values, not onto the defaults. */
  function Load(path: string, disk: Disk): Settings {
    if path == "" || !disk.File? || !Acceptable(ZERO, disk.body) then DEFAULTS
    else DecodeBody(ZERO, disk.body).merged
  }

  /** What a restart finds: the file's settings if there is a path, a file that decodes,
      and valid settings in it, every field it leaves out being zero; in all other cases
      the defaults. */
  lemma LoadExactly(path: string, disk: Disk)
    ensures Load(path, disk)
            == if path != "" && disk.File? && Decodes(disk.body) && Valid(FieldByField(ZERO, Assigned(disk.body)))
               then FieldByField(Settings(false, false, 0, false, None, 0, None, None), Assigned(disk.body))
               else Settings(false, true, 4, true, None, 250, None, None)
    ensures disk.File? && !Decodes(disk.body) ==> Load(path, disk) == DEFAULTS
  {
    if disk.File? { AcceptableExactly(ZERO, disk.body); }
  }

  lemma StepFits(d: Decoding, key: Key, t: Token)
    requires Fits(d.merged) && Fits(d.cur)
    ensures Fits(Step(d, key, t).merged) && Fits(Step(d, key, t).cur)
  {
  }

  lemma {:induction false} DecodeFits(d: Decoding, fields: Fields)
    requires Fits(d.merged) && Fits(d.cur)
    ensures Fits(Decode(d, fields).merged) && Fits(Decode(d, fields).cur)
  {
    if fields != [] {
      var before := fields[..|fields| - 1];
      DecodeFits(d, before);
      StepFits(Decode(d, before), fields[|fields| - 1].0, fields[|fields| - 1].1);
    }
  }

  lemma LoadedIsValid(path: string, disk: Disk)
    ensures Valid(Load(path, disk)) && Fits(Load(path, disk))
  {
    if disk.File? && disk.body.Object? {
      DecodeFits(Begin(ZERO), disk.body.fields);
    }
  }

  lemma LoadAfterSave(path: string, s: Settings)
    requires path != "" && Fits(s) && Valid(s)
    ensures Load(path, File(Object(Encode(s)))) == s
  {
    FileRoundTrip(s);
  }
}
