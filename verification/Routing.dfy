/** The pool with the routing it really has: slotFor applied to the handler's
    affinity keys. */
module Routing {
  import opened AffinityKey
  import opened PoolLedger
  import opened PoolMachine
  import opened PoolRefinement
  import opened Protocol

  ghost function ByKey(utf8: string -> Bytes, size: nat, enabled: bool, good: (Request, Result) -> bool, strict: bool)
    : (cfg: Config)
    requires size >= 1 && Divides(size)
    ensures WfConfig(cfg)
  {
    Config(size, enabled, key => SlotFor(utf8, key, size), good, strict)
  }

  /** Whatever the interleaving, the affinity-routed calls of one conversation go
      through one slot's buffer and leave it in the order they were sent, as turns
      are appended and object keys of the two opening messages are permuted. */
  lemma ConversationKeepsItsSlot(
    leaves: Leaves, utf8: string -> Bytes, cfg: Config, s: State,
    messages: seq<Raw>, later: seq<Raw>, c: JobId, d: JobId)
    requires cfg.size >= 1 && Divides(cfg.size)
    requires cfg == ByKey(utf8, cfg.size, cfg.affinityEnabled, cfg.good, cfg.strict) && Reachable(cfg, s)
    requires |messages| >= 2 && |later| >= 2
    requires SameMessage(leaves, messages[0], later[0]) && SameMessage(leaves, messages[1], later[1])
    requires c < |s.jobs| && s.jobs[c].route.ByAffinity? && s.jobs[c].req.key == KeyOf(leaves, "", messages)
    requires d < |s.jobs| && s.jobs[d].route.ByAffinity? && s.jobs[d].req.key == KeyOf(leaves, "", later)
    ensures var k := SlotFor(utf8, KeyOf(leaves, "", messages), cfg.size);
            var sent := Log(s.hist.sent, k);
            && k < cfg.size
            && c in sent && d in sent && NoRepeats(sent)
            && Log(s.hist.taken, k) <= sent && |sent| <= |Log(s.hist.taken, k)| + 1
  {
    var key := KeyOf(leaves, "", messages);
    KeyIsStable(leaves, utf8, messages, later, cfg.size);
    assert cfg.route(key) == SlotFor(utf8, key, cfg.size);
    AffinityInOrder(cfg, s, key);
  }
}
