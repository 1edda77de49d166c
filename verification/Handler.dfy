/** The hook handler's decision for one request (handler.go process, ServeHTTP). The
    Compress call splits `process` in two: what is prepared before it, and what its
    outcome is turned into. */
module Handler {
  import opened JsonValues
  import opened Protocol
  import opened SettingsValues
  import opened Wrappers

  /** The hook body after decoding; `requestBody` is absent when its field is. */
  datatype Hook = BadHook | Hook(provider: string, model: string, sessionId: string, requestBody: Option<Json>)

  /** What the handler finds on the wire. */
  datatype Payload = ReadFails | UnsupportedCoding | CorruptBody | Fine(hook: Hook)

  datatype Arrival = Arrival(isPost: bool, payload: Payload)

  datatype Response = NotAllowed405 | Unsupported415 | Allow | Modify(requestBody: map<string, Json>)

  datatype Reason = ReasonModify | ReasonNoop | ReasonError | ReasonPassthrough | ReasonReadError
                  | ReasonDecodeError | ReasonReject

  /** The part of the summary that metrics look at. */
  datatype Summary = Summary(
    provider: string, model: string,
    tokensBefore: int, tokensSaved: int, tokensAfter: int,
    cold: bool, reason: Reason)

  function NoResult(provider: string, model: string, reason: Reason): Summary {
    Summary(provider, model, 0, 0, 0, false, reason)
  }

  /** json.Unmarshal into a map of raw values: repeated keys keep the last value,
      null gives the empty map. */
  function TopLevel(v: Json): Option<map<string, Json>> {
    match v
    case JObj(fields) => Some(LastValues(fields))
    case JNull => Some(map[])
    case _ => None
  }

  function LastValues(fields: seq<Field>): map<string, Json> {
    if fields == [] then map[]
    else LastValues(fields[..|fields| - 1])[fields[|fields| - 1].key := fields[|fields| - 1].value]
  }

  /** json.Unmarshal into a slice of raw messages. */
  function Elements(v: Json): Option<seq<Json>> {
    match v
    case JArr(items) => Some(items)
    case JNull => Some([])
    case _ => None
  }

  /** The model given in metadata, or else the body's own. */
  function ModelOf(given: string, body: map<string, Json>): string {
    if given != "" then given
    else if "model" in body && body["model"].JStr? then body["model"].s
    else ""
  }

  datatype Prepared = Pass(provider: string, model: string)
                    | Call(provider: string, req: Request, body: map<string, Json>)

  /** Everything before the Compress call. */
  function Prepare(hook: Hook, settings: Settings, keyOf: (string, seq<Json>) -> string): Prepared {
    if hook.BadHook? || hook.requestBody.None? then Pass("", "")
    else
      match TopLevel(hook.requestBody.value)
      case None => Pass(hook.provider, hook.model)
      case Some(body) =>
        if "messages" !in body then Pass(hook.provider, hook.model)
        else
          match Elements(body["messages"])
          case None => Pass(hook.provider, hook.model)
          case Some(messages) =>
            Call(hook.provider,
                 Request(body["messages"], ModelOf(hook.model, body), settings, keyOf(hook.sessionId, messages)),
                 body)
  }

  /** A result worth sending back. */
  predicate Worthwhile(result: Result) { result.tokensSaved > 0 && result.messages.Some? }

  /** Everything after it. */
  function Conclude(call: Prepared, out: Outcome): (Response, Summary)
    requires call.Call?
  {
    match out
    case Failed(_) => (Allow, NoResult(call.provider, call.req.model, ReasonError))
    case Ok(result, _) =>
      var numbers := Summary(call.provider, call.req.model, result.tokensBefore, result.tokensSaved,
                             result.tokensAfter, result.cold, ReasonNoop);
      if !Worthwhile(result) then (Allow, numbers)
      else (Modify(call.body["messages" := result.messages.value]), numbers.(reason := ReasonModify))
  }

  // ---------- Which bodies are compressed ----------

  /** The last field of an object with this key, as json.Unmarshal keeps it. */
  predicate LastAt(fields: seq<Field>, key: string, k: nat) {
    && k < |fields| && fields[k].key == key
    && forall j :: k < j < |fields| ==> fields[j].key != key
  }

  /** The request body is an object whose last "messages" is an array or null, at k. */
  predicate MessagesAt(hook: Hook, k: nat) {
    && hook.Hook? && hook.requestBody.Some? && hook.requestBody.value.JObj?
    && LastAt(hook.requestBody.value.fields, "messages", k)
    && (hook.requestBody.value.fields[k].value.JArr? || hook.requestBody.value.fields[k].value.JNull?)
  }

  ghost predicate Compressible(hook: Hook) { exists k: nat :: MessagesAt(hook, k) }

  /** The model of the metadata, or else the string that is the body's last "model", or
      else none. */
  ghost predicate NamesModel(hook: Hook, model: string)
    requires hook.Hook? && hook.requestBody.Some? && hook.requestBody.value.JObj?
  {
    var fields := hook.requestBody.value.fields;
    if hook.model != "" then model == hook.model
    else if exists k: nat :: LastAt(fields, "model", k) && fields[k].value.JStr?
    then exists k: nat :: LastAt(fields, "model", k) && fields[k].value == JStr(model)
    else model == ""
  }

  /** What is asked of the pool for a hook whose messages are at k. */
  ghost predicate Asks(hook: Hook, k: nat, settings: Settings, keyOf: (string, seq<Json>) -> string, req: Request)
    requires MessagesAt(hook, k)
  {
    var messages := hook.requestBody.value.fields[k].value;
    && req.messages == messages && req.config == settings
    && req.key == keyOf(hook.sessionId, if messages.JArr? then messages.items else [])
    && NamesModel(hook, req.model)
  }

  lemma {:induction false} LastValuesAre(fields: seq<Field>, key: string)
    ensures key in LastValues(fields) <==> exists k: nat :: LastAt(fields, key, k)
    ensures forall k: nat :: LastAt(fields, key, k) ==>
              key in LastValues(fields) && LastValues(fields)[key] == fields[k].value
  {
    if fields != [] {
      var n := |fields| - 1;
      var front := fields[..n];
      LastValuesAre(front, key);
      if fields[n].key == key {
        assert LastAt(fields, key, n);
      } else {
        forall k: nat | LastAt(fields, key, k) ensures LastAt(front, key, k) && front[k] == fields[k] {}
        forall k: nat | LastAt(front, key, k) ensures LastAt(fields, key, k) {
          assert front[k] == fields[k];
          forall j | k < j < |fields| ensures fields[j].key != key { if j < n { assert front[j] == fields[j]; } }
        }
      }
    }
  }

  /** A call is made exactly for a body whose messages are an array or null, and asks for
      just these messages under the settings read. */
  lemma CallsExactly(hook: Hook, settings: Settings, keyOf: (string, seq<Json>) -> string)
    ensures Prepare(hook, settings, keyOf).Call? <==> Compressible(hook)
    ensures forall k: nat :: MessagesAt(hook, k) ==>
              var call := Prepare(hook, settings, keyOf);
              call.Call? && Asks(hook, k, settings, keyOf, call.req) && call.provider == hook.provider
  {
    if hook.Hook? && hook.requestBody.Some? && hook.requestBody.value.JObj? {
      var fields := hook.requestBody.value.fields;
      LastValuesAre(fields, "messages");
      LastValuesAre(fields, "model");
      if k: nat :| LastAt(fields, "messages", k) {
        assert MessagesAt(hook, k) <==> Elements(fields[k].value).Some?;
      }
    }
  }

  /** A hook that is not compressed is labelled with what it says of itself, if it has a
      body at all. */
  lemma PassesOn(hook: Hook, settings: Settings, keyOf: (string, seq<Json>) -> string)
    requires !Compressible(hook)
    ensures Prepare(hook, settings, keyOf)
            == if hook.Hook? && hook.requestBody.Some? then Pass(hook.provider, hook.model) else Pass("", "")
  {
    CallsExactly(hook, settings, keyOf);
  }

  /** A hook call in progress. `ServeHTTP` and `process` fill it in step by step and
      overwrite the messages of the parsed body in place. */
  class Handling {
    var summary: Summary
    var reqBody: map<string, Json>
    var pending: Option<Request>     // the Compress call being waited for
    var answer: Option<Response>

    ghost var call: Prepared         // what pending was prepared from

    ghost predicate Valid()
      reads this
    {
      pending.Some? ==>
        && call.Call? && call.req == pending.value && call.body == reqBody
        && summary == NoResult(call.provider, call.req.model, ReasonPassthrough)
        && answer.None?
    }

    constructor ()
      ensures Valid() && pending.None? && answer.None?
    {
      summary := NoResult("", "", ReasonPassthrough);
      reqBody, pending, answer := map[], None, None;
    }

    /** ServeHTTP up to the Compress call, or to the answer if there is none. A 405 is
        answered without a summary. */
    method Receive(arrival: Arrival, settings: Settings, keyOf: (string, seq<Json>) -> string)
      requires Valid() && pending.None? && answer.None?
      modifies this
      ensures Valid()
      ensures pending.Some? <==> arrival.isPost && arrival.payload.Fine? && Compressible(arrival.payload.hook)
      ensures pending.Some? <==> arrival.isPost && arrival.payload.Fine?
                                 && Prepare(arrival.payload.hook, settings, keyOf).Call?
      ensures forall k: nat :: arrival.isPost && arrival.payload.Fine? && MessagesAt(arrival.payload.hook, k) ==>
                pending.Some? && Asks(arrival.payload.hook, k, settings, keyOf, pending.value)
      ensures pending.Some? ==> call == Prepare(arrival.payload.hook, settings, keyOf)
      ensures pending.None? ==> answer.Some? && (answer.value, summary) == Quick(arrival, settings, keyOf, old(summary))
      ensures pending.None? ==>
                (answer.value == if !arrival.isPost then NotAllowed405
                                 else if arrival.payload.UnsupportedCoding? then Unsupported415 else Allow)
      ensures pending.None? && arrival.isPost ==>
                summary.reason == match arrival.payload
                                  case ReadFails => ReasonReadError
                                  case UnsupportedCoding => ReasonReject
                                  case CorruptBody => ReasonDecodeError
                                  case Fine(_) => ReasonPassthrough
    {
      if arrival.isPost && arrival.payload.Fine? { CallsExactly(arrival.payload.hook, settings, keyOf); }
      if !arrival.isPost {
        answer := Some(NotAllowed405);
        return;
      }
      match arrival.payload
      case ReadFails =>
        summary := NoResult("", "", ReasonReadError);
        answer := Some(Allow);
      case UnsupportedCoding =>
        summary := NoResult("", "", ReasonReject);
        answer := Some(Unsupported415);
      case CorruptBody =>
        summary := NoResult("", "", ReasonDecodeError);
        answer := Some(Allow);
      case Fine(hook) => Process(hook, settings, keyOf);
    }

    /** process up to the Compress call. */
    method Process(hook: Hook, settings: Settings, keyOf: (string, seq<Json>) -> string)
      requires pending.None? && answer.None?
      modifies this
      ensures Valid()
      ensures pending.Some? <==> Compressible(hook)
      ensures forall k: nat :: MessagesAt(hook, k) ==> pending.Some? && Asks(hook, k, settings, keyOf, pending.value)
      ensures pending.Some? ==> call == Prepare(hook, settings, keyOf)
      ensures pending.None? ==>
                && answer == Some(Allow)
                && summary == if hook.Hook? && hook.requestBody.Some?
                              then Summary(hook.provider, hook.model, 0, 0, 0, false, ReasonPassthrough)
                              else Summary("", "", 0, 0, 0, false, ReasonPassthrough)
    {
      CallsExactly(hook, settings, keyOf);
      summary := NoResult("", "", ReasonPassthrough);
      if hook.BadHook? || hook.requestBody.None? {
        answer := Some(Allow);
        return;
      }
      summary := summary.(provider := hook.provider, model := hook.model);
      var body := TopLevel(hook.requestBody.value);
      if body.None? || "messages" !in body.value {
        answer := Some(Allow);
        return;
      }
      reqBody := body.value;
      var messages := Elements(reqBody["messages"]);
      if messages.None? {
        answer := Some(Allow);
        return;
      }
      summary := summary.(model := ModelOf(hook.model, reqBody));
      pending := Some(Request(reqBody["messages"], summary.model, settings, keyOf(hook.sessionId, messages.value)));
      call := Prepare(hook, settings, keyOf);
    }

    /** process from the return of Compress on. */
    method Finish(out: Outcome)
      requires Valid() && pending.Some?
      modifies this
      ensures Valid() && pending.None? && answer.Some?
      ensures (answer.value, summary) == Conclude(old(call), out)
    {
      pending := None;
      if out.Failed? {
        summary := summary.(reason := ReasonError);
        answer := Some(Allow);
        return;
      }
      var result := out.result;
      summary := summary.(tokensBefore := result.tokensBefore, tokensSaved := result.tokensSaved,
                          tokensAfter := result.tokensAfter, cold := result.cold);
      if result.tokensSaved <= 0 || result.messages.None? {
        summary := summary.(reason := ReasonNoop);
        answer := Some(Allow);
        return;
      }
      reqBody := reqBody["messages" := result.messages.value];
      summary := summary.(reason := ReasonModify);
      answer := Some(Modify(reqBody));
    }
  }

  /** The answer and summary of a request that needs no Compress call; a 405 leaves
      the summary as it was. */
  function Quick(arrival: Arrival, settings: Settings, keyOf: (string, seq<Json>) -> string, none: Summary)
    : (Response, Summary)
    requires arrival.isPost && arrival.payload.Fine? ==> Prepare(arrival.payload.hook, settings, keyOf).Pass?
  {
    if !arrival.isPost then (NotAllowed405, none)
    else
      match arrival.payload
      case ReadFails => (Allow, NoResult("", "", ReasonReadError))
      case UnsupportedCoding => (Unsupported415, NoResult("", "", ReasonReject))
      case CorruptBody => (Allow, NoResult("", "", ReasonDecodeError))
      case Fine(hook) =>
        var pass := Prepare(hook, settings, keyOf);
        (Allow, NoResult(pass.provider, pass.model, ReasonPassthrough))
  }

  // ---------- What an answer means ----------

  /** A modified body differs from the request's own only in its messages. */
  ghost predicate SplicesInto(hook: Hook, body: map<string, Json>, messages: Json) {
    && hook.Hook? && hook.requestBody.Some?
    && TopLevel(hook.requestBody.value).Some?
    && var own := TopLevel(hook.requestBody.value).value;
    && "messages" in own
    && body.Keys == own.Keys
    && body["messages"] == messages
    && forall k :: k in own && k != "messages" ==> body[k] == own[k]
  }

  /** What the handler sends back for an outcome of the Compress call it prepared:
      "modify" exactly for a worthwhile result, splicing it into this same body;
      "allow" for everything else. */
  lemma ModifyMeansSpliced(hook: Hook, settings: Settings, keyOf: (string, seq<Json>) -> string, out: Outcome)
    requires Prepare(hook, settings, keyOf).Call?
    ensures var call := Prepare(hook, settings, keyOf);
            var (resp, summary) := Conclude(call, out);
            && hook.Hook? && hook.requestBody.Some? && TopLevel(hook.requestBody.value).Some?
            && "messages" in TopLevel(hook.requestBody.value).value
            && call.req.messages == TopLevel(hook.requestBody.value).value["messages"]
            && call.req.config == settings
            && (resp.Modify? <==> out.Ok? && out.result.tokensSaved > 0 && out.result.messages.Some?)
            && (!resp.Modify? ==> resp == Allow)
            && (resp.Modify? ==> SplicesInto(hook, resp.requestBody, out.result.messages.value))
            && (summary.reason == ReasonModify <==> resp.Modify?)
            && (summary.reason == ReasonError <==> out.Failed?)
            && summary.provider == call.provider && summary.model == call.req.model
            && (out.Ok? ==>
                  && summary.tokensBefore == out.result.tokensBefore && summary.tokensSaved == out.result.tokensSaved
                  && summary.tokensAfter == out.result.tokensAfter && summary.cold == out.result.cold)
            && (out.Failed? ==>
                  summary.tokensBefore == summary.tokensSaved == summary.tokensAfter == 0 && !summary.cold)
  {
  }
}
