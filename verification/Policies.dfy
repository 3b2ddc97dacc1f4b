/** Policy folds over compiled selectors and class labels
    (capability/registry/capability_registry_policy.go) and insertion decisions
    (capability/registry/capability_policy_eval.go, capability/result/result.go). */
module Policies {
  import opened Options
  import opened Selectors

  // ----- execution levels -----

  datatype Level = Unset | Allow | Ask | Deny | Unknown(text: string)

  /** unset < allow < ask < deny; an unknown level counts for nothing. */
  function Rank(l: Level): nat {
    match l
    case Allow => 1
    case Ask => 2
    case Deny => 3
    case _ => 0
  }

  /** The join of a set of levels: one of the four, above them all, and reached. */
  ghost predicate IsJoin(levels: set<Level>, r: Level) {
    && !r.Unknown?
    && (forall l :: l in levels ==> Rank(l) <= Rank(r))
    && (r == Unset || r in levels)
  }

  /** unset < allow < ask < deny. */
  lemma LevelsInOrder()
    ensures Rank(Unset) < Rank(Allow) < Rank(Ask) < Rank(Deny)
    ensures forall text :: Rank(Unknown(text)) == Rank(Unset)
  {}

  lemma JoinIsUnique(levels: set<Level>, r: Level, q: Level)
    requires IsJoin(levels, r) && IsJoin(levels, q)
    ensures r == q
  {
    assert r != Unset ==> Rank(r) <= Rank(q);
    assert q != Unset ==> Rank(q) <= Rank(r);
  }

  datatype Policy = Policy(execute: Level, selector: Compiled)

  ghost function Applicable(p: Profile, policies: seq<Policy>): set<Level> {
    set i | 0 <= i < |policies| && CompiledMatches(policies[i].selector, p) :: policies[i].execute
  }

  /** One turn of the fold: deny ends it, ask beats allow, allow beats unset. */
  function Merge(result: Level, l: Level): Level {
    if l == Deny then Deny
    else if l == Ask && result != Deny then Ask
    else if l == Allow && result == Unset then Allow
    else result
  }

  lemma MergeKeepsJoin(levels: set<Level>, result: Level, l: Level)
    requires IsJoin(levels, result)
    ensures IsJoin(levels + {l}, Merge(result, l))
  {}

  lemma DenyIsJoin(levels: set<Level>)
    requires Deny in levels
    ensures IsJoin(levels, Deny)
  {}

  lemma ApplicableAppend(p: Profile, policies: seq<Policy>, q: Policy)
    ensures Applicable(p, policies + [q]) ==
            Applicable(p, policies) + (if CompiledMatches(q.selector, p) then {q.execute} else {})
  {
    var all := policies + [q];
    forall l | l in Applicable(p, policies) ensures l in Applicable(p, all) {
      var i :| 0 <= i < |policies| && CompiledMatches(policies[i].selector, p) && policies[i].execute == l;
      assert all[i] == policies[i];
    }
    if CompiledMatches(q.selector, p) { assert all[|policies|] == q; }
  }

  /** The fold over capability policies, with its early exit, is the join of the levels of all
      matching policies: order and duplicates cannot matter. */
  method EffectiveCapabilityPolicy(p: Profile, policies: seq<Policy>) returns (result: Level)
    ensures IsJoin(Applicable(p, policies), result)
  {
    result := Unset;
    for i := 0 to |policies|
      invariant IsJoin(Applicable(p, policies[..i]), result)
    {
      var q := policies[i];
      assert policies[..i + 1] == policies[..i] + [q];
      ApplicableAppend(p, policies[..i], q);
      if CompiledMatches(q.selector, p) {
        if q.execute == Deny {
          DenyIsJoin(Applicable(p, policies));
          return Deny;
        }
        MergeKeepsJoin(Applicable(p, policies[..i]), result, q.execute);
        if q.execute == Ask && result != Deny {
          result := Ask;
        } else if q.execute == Allow && result == Unset {
          result := Allow;
        }
      }
    }
    assert policies[..|policies|] == policies;
  }

  ghost function Assigned(labels: set<string>, policies: map<string, Level>): set<Level> {
    set l | l in labels && l in policies :: policies[l]
  }

  ghost function Members(labels: seq<string>): set<string> {
    set l | l in labels
  }

  /** The fold over class labels, which arrive in map order, is the join over the label set. */
  method EffectiveClassPolicy(labels: seq<string>, policies: map<string, Level>) returns (result: Level)
    ensures IsJoin(Assigned(Members(labels), policies), result)
  {
    result := Unset;
    for i := 0 to |labels|
      invariant IsJoin(Assigned(Members(labels[..i]), policies), result)
    {
      assert labels[..i + 1] == labels[..i] + [labels[i]];
      if labels[i] in policies {
        var level := policies[labels[i]];
        assert Assigned(Members(labels[..i + 1]), policies) == Assigned(Members(labels[..i]), policies) + {level};
        if level == Deny {
          assert Deny in Assigned(Members(labels), policies) by { assert labels[i] in Members(labels); }
          DenyIsJoin(Assigned(Members(labels), policies));
          return Deny;
        }
        MergeKeepsJoin(Assigned(Members(labels[..i]), policies), result, level);
        if level == Ask && result != Deny {
          result := Ask;
        } else if level == Allow && result == Unset {
          result := Allow;
        }
      } else {
        assert Assigned(Members(labels[..i + 1]), policies) == Assigned(Members(labels[..i]), policies);
      }
    }
    assert labels[..|labels|] == labels;
  }

  /** Any two orders and multiplicities of the same labels give the same level. */
  lemma OrderDoesNotMatter(xs: seq<string>, ys: seq<string>, policies: map<string, Level>, a: Level, b: Level)
    requires Members(xs) == Members(ys)
    requires IsJoin(Assigned(Members(xs), policies), a) && IsJoin(Assigned(Members(ys), policies), b)
    ensures a == b
  {
    JoinIsUnique(Assigned(Members(xs), policies), a, b);
  }

  // ----- insertion decisions -----

  datatype InsertionAction =
    | NoAction | Direct | Summarized | MetadataOnly | HITLRequired | Denied | OtherAction(text: string)

  function Restrictiveness(a: InsertionAction): nat {
    match a
    case Direct => 0
    case Summarized => 1
    case MetadataOnly => 2
    case HITLRequired => 3
    case _ => 4
  }

  /** direct < summarized < metadata-only < approval < denied, and anything else counts as denied. */
  lemma ActionsInOrder()
    ensures Restrictiveness(Direct) < Restrictiveness(Summarized) < Restrictiveness(MetadataOnly)
            < Restrictiveness(HITLRequired) < Restrictiveness(Denied)
    ensures Restrictiveness(NoAction) == Restrictiveness(Denied)
    ensures forall text :: Restrictiveness(OtherAction(text)) == Restrictiveness(Denied)
  {}

  datatype Decision = Decision(action: InsertionAction, reason: string, requiresHITL: bool, policySnapshotID: string)

  datatype Disposition = MetadataOnlyContent | SummarizedContent | OtherContent

  function DefaultDecision(trustClass: string, disposition: Disposition): Decision {
    if trustClass == "builtin-trusted" || trustClass == "workspace-trusted" then
      Decision(Direct, "trusted capability output allowed for direct insertion", false, "")
    else if trustClass == "llm-generated" || trustClass == "tool-result" then
      Decision(Summarized, "generated capability output requires summarized insertion", false, "")
    else if trustClass == "remote-approved" then
      Decision(Summarized, "remote-approved capability output requires summarized insertion", false, "")
    else if trustClass == "provider-local-untrusted" || trustClass == "remote-declared-untrusted" then
      Decision(MetadataOnly, "untrusted capability output defaults to metadata-only insertion", false, "")
    else match disposition
      case MetadataOnlyContent => Decision(MetadataOnly, "metadata-only content disposition", false, "")
      case SummarizedContent => Decision(Summarized, "summarized content disposition", false, "")
      case OtherContent => Decision(Summarized, "capability output requires summarized insertion by default", false, "")
  }

  /** By default trusted output goes in directly, untrusted output only as metadata, and what is
      generated or approved remotely is summarized, whatever its disposition. */
  lemma DefaultsByTrust(disposition: Disposition)
    ensures DefaultDecision("builtin-trusted", disposition).action == Direct
    ensures DefaultDecision("workspace-trusted", disposition).action == Direct
    ensures DefaultDecision("llm-generated", disposition).action == Summarized
    ensures DefaultDecision("tool-result", disposition).action == Summarized
    ensures DefaultDecision("remote-approved", disposition).action == Summarized
  {
    assert "llm-generated"[0] == 'l' && "tool-result"[0] == 't' && "remote-approved"[0] == 'r';
  }

  lemma DefaultsOfUntrusted(disposition: Disposition)
    ensures DefaultDecision("provider-local-untrusted", disposition).action == MetadataOnly
    ensures DefaultDecision("remote-declared-untrusted", disposition).action == MetadataOnly
  {
    assert "provider-local-untrusted"[0] == 'p' && |"remote-declared-untrusted"| == 25;
  }

  /** Of output without a known trust class the disposition decides. */
  lemma DefaultsByDisposition(trustClass: string, disposition: Disposition)
    requires trustClass !in TRUST
    ensures DefaultDecision(trustClass, disposition).action ==
            if disposition == MetadataOnlyContent then MetadataOnly else Summarized
  {}

  datatype InsertionPolicy = InsertionPolicy(selector: Selector, action: InsertionAction)

  datatype Envelope = Envelope(
    descriptor: Descriptor, insertion: Decision, disposition: Disposition, policyID: Option<string>)

  function Starting(e: Envelope): Decision {
    if e.insertion.action == NoAction then DefaultDecision(e.descriptor.trustClass, e.disposition) else e.insertion
  }

  ghost function Candidates(e: Envelope, policies: seq<InsertionPolicy>): set<InsertionAction> {
    {Starting(e).action} +
    set i | 0 <= i < |policies| && Matches(policies[i].selector, e.descriptor) :: policies[i].action
  }

  ghost predicate MostRestrictive(actions: set<InsertionAction>, a: InsertionAction) {
    a in actions && forall b :: b in actions ==> Restrictiveness(b) <= Restrictiveness(a)
  }

  lemma CandidatesAppend(e: Envelope, policies: seq<InsertionPolicy>, p: InsertionPolicy)
    ensures Candidates(e, policies + [p]) ==
            Candidates(e, policies) + (if Matches(p.selector, e.descriptor) then {p.action} else {})
  {
    var all := policies + [p];
    forall a | a in Candidates(e, policies) && a != Starting(e).action ensures a in Candidates(e, all) {
      var i :| 0 <= i < |policies| && Matches(policies[i].selector, e.descriptor) && policies[i].action == a;
      assert all[i] == policies[i];
    }
    if Matches(p.selector, e.descriptor) { assert all[|policies|] == p; }
  }

  const OVERRIDE := "manifest insertion policy override"

  /** Some matching policy is at least as restrictive as the decision it starts from. */
  ghost predicate Overridden(e: Envelope, policies: seq<InsertionPolicy>) {
    exists i :: 0 <= i < |policies| && Overrides(e, policies[i])
  }

  /** A policy as restrictive as what the envelope asks for counts as overriding it. */
  lemma TieOverrides(e: Envelope, policies: seq<InsertionPolicy>, i: nat)
    requires i < |policies| && Matches(policies[i].selector, e.descriptor)
    requires e.insertion.action != NoAction
    requires Restrictiveness(policies[i].action) >= Restrictiveness(e.insertion.action)
    ensures Overridden(e, policies)
  {
    assert Overrides(e, policies[i]);
  }

  predicate Overrides(e: Envelope, p: InsertionPolicy) {
    Matches(p.selector, e.descriptor) && Restrictiveness(p.action) >= Restrictiveness(Starting(e).action)
  }

  lemma OverriddenAppend(e: Envelope, policies: seq<InsertionPolicy>, p: InsertionPolicy)
    ensures Overridden(e, policies + [p]) <==> Overridden(e, policies) || Overrides(e, p)
  {
    var all := policies + [p];
    if i :| 0 <= i < |policies| && Overrides(e, policies[i]) { assert Overrides(e, all[i]); }
    if Overrides(e, p) { assert Overrides(e, all[|policies|]); }
  }

  /** The decision is the most restrictive of the envelope's own (or the default) and all
      matching policies; approval is asked for exactly when that is what it says. A missing
      envelope is denied. */
  method EffectiveInsertionDecision(policies: seq<InsertionPolicy>, envelope: Option<Envelope>) returns (d: Decision)
    ensures envelope.None? ==> d.action == Denied
    ensures envelope.Some? ==> MostRestrictive(Candidates(envelope.value, policies), d.action)
    ensures envelope.Some? && policies == [] && envelope.value.insertion.action != NoAction ==>
              d == envelope.value.insertion
    ensures envelope.Some? && envelope.value.insertion.action != NoAction ==>
              Restrictiveness(envelope.value.insertion.action) <= Restrictiveness(d.action)
    ensures envelope.Some? && policies == [] ==> d == Starting(envelope.value)
    ensures envelope.Some? && policies != [] ==> (d.requiresHITL <==> d.action == HITLRequired)
    ensures envelope.Some? && policies != [] ==>
              d.reason == if Overridden(envelope.value, policies) then "manifest insertion policy override"
                          else Starting(envelope.value).reason
    ensures envelope.Some? && policies != [] ==>
              d.policySnapshotID == if Starting(envelope.value).policySnapshotID != "" || envelope.value.policyID.None?
                                    then Starting(envelope.value).policySnapshotID else envelope.value.policyID.value
  {
    if envelope.None? {
      return Decision(Denied, "capability result envelope missing", false, "");
    }
    var e := envelope.value;
    d := Starting(e);
    if policies == [] {
      return;
    }
    var override := d.action;
    for i := 0 to |policies|
      invariant MostRestrictive(Candidates(e, policies[..i]), override)
      invariant d == Starting(e).(reason := if Overridden(e, policies[..i]) then OVERRIDE else Starting(e).reason)
    {
      OverriddenAppend(e, policies[..i], policies[i]);
      assert policies[..i + 1] == policies[..i] + [policies[i]];
      CandidatesAppend(e, policies[..i], policies[i]);
      if Matches(policies[i].selector, e.descriptor) {
        if Restrictiveness(policies[i].action) >= Restrictiveness(override) {
          override := policies[i].action;
          d := d.(reason := OVERRIDE);
        }
      }
    }
    assert policies[..|policies|] == policies;
    d := d.(action := override, requiresHITL := override == HITLRequired);
    if d.policySnapshotID == "" && e.policyID.Some? {
      d := d.(policySnapshotID := e.policyID.value);
    }
  }

  // ----- content blocks -----

  datatype Block = Text | Structured | Error | BinaryReference | EmbeddedResource | ResourceLink | NilBlock

  predicate Indirect(b: Block) {
    b.BinaryReference? || b.EmbeddedResource? || b.ResourceLink?
  }

  function BlockDefault(b: Block, inherited: Decision): Decision {
    if Indirect(b) then
      inherited.(action := MetadataOnly, requiresHITL := false,
                 reason := "resource and binary content defaults to metadata-only insertion")
    else inherited
  }

  function MoreRestrictive(base: Decision, candidate: Decision): Decision {
    if Restrictiveness(candidate.action) < Restrictiveness(base.action) then base
    else
      candidate.(policySnapshotID := if candidate.policySnapshotID == "" then base.policySnapshotID
                                     else candidate.policySnapshotID,
                 requiresHITL := candidate.action == HITLRequired)
  }

  /** How restrictive one block must be under the envelope's decision. */
  function Required(b: Block, decision: Decision): nat {
    if Indirect(b) && Restrictiveness(decision.action) < Restrictiveness(MetadataOnly)
    then Restrictiveness(MetadataOnly) else Restrictiveness(decision.action)
  }

  datatype BlockInsertion = BlockInsertion(block: Block, decision: Decision)

  /** Exactly as restrictive as required, hence never less than the envelope. Resources and binary
      content under a laxer decision go in as metadata without approval; all else as decided. */
  predicate Suits(b: BlockInsertion, decision: Decision) {
    && Restrictiveness(b.decision.action) == Required(b.block, decision) >= Restrictiveness(decision.action)
    && b.decision.policySnapshotID == decision.policySnapshotID
    && if (b.block == Text || b.block == Structured || b.block == Error)
       then && b.decision.action == decision.action && b.decision.reason == decision.reason
            && (b.decision.requiresHITL <==> decision.action == HITLRequired)
       else if Restrictiveness(decision.action) <= 2
       then b.decision.action == MetadataOnly && !b.decision.requiresHITL
       else b.decision == decision
  }

  function Present(blocks: seq<Block>): seq<Block> {
    if blocks == [] then []
    else Present(blocks[..|blocks| - 1]) + (if blocks[|blocks| - 1] == NilBlock then [] else [blocks[|blocks| - 1]])
  }

  /** Every block but a missing one is present, in order and as often as it was given. */
  lemma {:induction false} PresentExactly(blocks: seq<Block>, b: Block)
    ensures multiset(Present(blocks))[b] == if b == NilBlock then 0 else multiset(blocks)[b]
    decreases |blocks|
  {
    if blocks != [] {
      assert blocks == blocks[..|blocks| - 1] + [blocks[|blocks| - 1]];
      PresentExactly(blocks[..|blocks| - 1], b);
    }
  }

  ghost predicate InsertionsFor(out: seq<BlockInsertion>, present: seq<Block>, decision: Decision) {
    && |out| == |present|
    && forall i :: 0 <= i < |out| ==> out[i].block == present[i] && Suits(out[i], decision)
  }

  function InsertionOf(b: Block, decision: Decision): BlockInsertion {
    BlockInsertion(b, MoreRestrictive(decision, BlockDefault(b, decision)))
  }

  lemma InsertionSuits(b: Block, decision: Decision)
    requires b != NilBlock
    ensures Suits(InsertionOf(b, decision), decision)
  {
    var d := InsertionOf(b, decision).decision;
    if b == Text || b == Structured || b == Error {
      assert d == decision.(requiresHITL := decision.action == HITLRequired);
    } else if Restrictiveness(decision.action) <= 2 {
      assert d.action == MetadataOnly && !d.requiresHITL && d.policySnapshotID == decision.policySnapshotID;
    } else {
      assert d == decision;
    }
  }

  lemma InsertionsAppend(out: seq<BlockInsertion>, present: seq<Block>, b: Block, decision: Decision)
    requires InsertionsFor(out, present, decision) && b != NilBlock
    ensures InsertionsFor(out + [InsertionOf(b, decision)], present + [b], decision)
  {
    InsertionSuits(b, decision);
    var x := InsertionOf(b, decision);
    assert x.block == b;
  }

  /** One insertion per present block, in order; each exactly as restrictive as the envelope,
      or metadata-only for resource and binary content if that is stricter; never less. */
  method BuildContentBlockInsertions(blocks: seq<Block>, decision: Decision) returns (out: seq<BlockInsertion>)
    ensures InsertionsFor(out, Present(blocks), decision)
  {
    out := [];
    for k := 0 to |blocks|
      invariant InsertionsFor(out, Present(blocks[..k]), decision)
    {
      assert blocks[..k + 1][..k] == blocks[..k];
      if blocks[k] != NilBlock {
        InsertionsAppend(out, Present(blocks[..k]), blocks[k], decision);
        out := out + [InsertionOf(blocks[k], decision)];
      }
    }
    assert blocks[..|blocks|] == blocks;
  }
}
