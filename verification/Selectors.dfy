/** Capability selectors: the plain matcher (capability/registry/capability_policy_eval.go), the
    compiled one (capability/registry/selector_compile.go) and selector validation
    (capability/registry/capability_selector_helpers.go). */
module Selectors {
  import opened Options
  import opened Text

  const UNSET := 0  // EnabledState: 0 unset, 1 enabled, 2 disabled

  datatype Selector = Selector(
    id: string, name: string, kind: string,
    runtimeFamilies: seq<string>, tags: seq<string>, excludeTags: seq<string>,
    sourceScopes: seq<string>, trustClasses: seq<string>, riskClasses: seq<string>, effectClasses: seq<string>,
    roles: seq<string>, taskTypes: seq<string>, executionModes: seq<string>,
    longRunning: int, directInsertion: int)

  const ANY := Selector("", "", "", [], [], [], [], [], [], [], [], [], [], UNSET, UNSET)

  datatype Coordination = Coordination(
    role: string, taskTypes: seq<string>, executionModes: seq<string>, longRunning: int, directInsertion: int)

  datatype Descriptor = Descriptor(
    id: string, name: string, kind: string, runtimeFamily: string, scope: string, trustClass: string,
    tags: seq<string>, effectClasses: seq<string>, coordination: Option<Coordination>)

  /** governance/risk: the risk classes of an effect set in a scope. */
  function Classify(effects: seq<string>, scope: string): set<string> {
    var byEffect :=
      (if "filesystem-mutation" in effects then {"destructive"} else {}) +
      (if "process-spawn" in effects then {"execute"} else {}) +
      (if "network-egress" in effects || "external-state" in effects
       then {"network", "exfiltration-sensitive"} else {}) +
      (if "credential-use" in effects then {"credentialed"} else {}) +
      (if "session-creation" in effects then {"sessioned"} else {});
    (if byEffect == {} then {"read-only"} else byEffect) +
    (if scope == "workspace" then {"sessioned"}
     else if scope == "provider" then {"credentialed"}
     else if scope == "remote" then {"sessioned", "network", "exfiltration-sensitive"}
     else {})
  }

  // ----- the plain matcher -----

  predicate ContainsFold(want: string, haystack: seq<string>) {
    Trim(want) != "" && exists i :: 0 <= i < |haystack| && EqualFold(Trim(haystack[i]), Trim(want))
  }

  predicate ContainsAllFold(wants: seq<string>, haystack: seq<string>) {
    forall i :: 0 <= i < |wants| ==> ContainsFold(wants[i], haystack)
  }

  predicate ContainsAnyFold(wants: seq<string>, haystack: seq<string>) {
    exists i :: 0 <= i < |wants| && ContainsFold(wants[i], haystack)
  }

  predicate Overlap(wants: seq<string>, have: set<string>) {
    exists i :: 0 <= i < |wants| && wants[i] in have
  }

  predicate Matches(s: Selector, d: Descriptor) {
    && (Trim(s.id) == "" || EqualFold(Trim(s.id), d.id))
    && (Trim(s.name) == "" || EqualFold(Trim(s.name), d.name))
    && (s.kind == "" || s.kind == d.kind)
    && (s.runtimeFamilies == [] || d.runtimeFamily in s.runtimeFamilies)
    && (s.tags == [] || ContainsAllFold(s.tags, d.tags))
    && (s.excludeTags == [] || !ContainsAnyFold(s.excludeTags, d.tags))
    && (s.sourceScopes == [] || d.scope in s.sourceScopes)
    && (s.trustClasses == [] || d.trustClass in s.trustClasses)
    && (s.riskClasses == [] || Overlap(s.riskClasses, Classify(d.effectClasses, d.scope)))
    && (s.effectClasses == [] || Overlap(s.effectClasses, set e | e in d.effectClasses))
    && (s.roles == [] || (d.coordination.Some? && d.coordination.value.role in s.roles))
    && (s.taskTypes == [] || (d.coordination.Some? && ContainsAllFold(s.taskTypes, d.coordination.value.taskTypes)))
    && (s.executionModes == [] ||
        (d.coordination.Some? && Overlap(s.executionModes, set m | m in d.coordination.value.executionModes)))
    && (s.longRunning == UNSET || (d.coordination.Some? && d.coordination.value.longRunning == s.longRunning))
    && (s.directInsertion == UNSET ||
        (d.coordination.Some? && d.coordination.value.directInsertion == s.directInsertion))
  }

  // ----- the plain matcher, criterion by criterion -----

  /** Which effects bring which risk: the destructive and executing ones. */
  lemma MutationRisks(effects: seq<string>, scope: string)
    ensures "destructive" in Classify(effects, scope) <==> "filesystem-mutation" in effects
    ensures "execute" in Classify(effects, scope) <==> "process-spawn" in effects
  {
    assert |"destructive"| == 11 && |"execute"| == 7;
  }

  /** Reaching out, by effect or from a remote scope, is both a network and an exfiltration risk. */
  lemma NetworkRisks(effects: seq<string>, scope: string)
    ensures "network" in Classify(effects, scope) <==>
            "network-egress" in effects || "external-state" in effects || scope == "remote"
    ensures "exfiltration-sensitive" in Classify(effects, scope) <==> "network" in Classify(effects, scope)
  {
    assert "network"[0] == 'n' && "execute"[0] == 'e' && |"exfiltration-sensitive"| == 22;
  }

  /** Credentials come with use or a provider, sessions with creation, the workspace or a remote. */
  lemma SessionRisks(effects: seq<string>, scope: string)
    ensures "credentialed" in Classify(effects, scope) <==> "credential-use" in effects || scope == "provider"
    ensures "sessioned" in Classify(effects, scope) <==>
            "session-creation" in effects || scope == "workspace" || scope == "remote"
  {
    assert |"credentialed"| == 12 && "sessioned"[0] == 's' && "read-only"[0] == 'r';
  }

  /** Only what has none of the known effects is read-only. */
  lemma ReadOnlyRisk(effects: seq<string>, scope: string)
    ensures "read-only" in Classify(effects, scope) <==>
            && "filesystem-mutation" !in effects && "process-spawn" !in effects && "network-egress" !in effects
            && "external-state" !in effects && "credential-use" !in effects && "session-creation" !in effects
  {
    assert "read-only"[0] == 'r';
  }

  /** A selector matches exactly if each of its criteria does on its own. */
  lemma CriteriaAreIndependent(s: Selector, d: Descriptor)
    ensures Matches(s, d) <==>
            && Matches(ANY.(id := s.id), d) && Matches(ANY.(name := s.name), d) && Matches(ANY.(kind := s.kind), d)
            && Matches(ANY.(runtimeFamilies := s.runtimeFamilies), d)
            && Matches(ANY.(tags := s.tags), d) && Matches(ANY.(excludeTags := s.excludeTags), d)
            && Matches(ANY.(sourceScopes := s.sourceScopes), d) && Matches(ANY.(trustClasses := s.trustClasses), d)
            && Matches(ANY.(riskClasses := s.riskClasses), d) && Matches(ANY.(effectClasses := s.effectClasses), d)
            && Matches(ANY.(roles := s.roles), d) && Matches(ANY.(taskTypes := s.taskTypes), d)
            && Matches(ANY.(executionModes := s.executionModes), d)
            && Matches(ANY.(longRunning := s.longRunning), d) && Matches(ANY.(directInsertion := s.directInsertion), d)
  {
    AnyMatches(d);
  }

  lemma AnyMatches(d: Descriptor)
    ensures Trim(ANY.id) == "" && Trim(ANY.name) == "" && Matches(ANY, d)
  {
    TrimProperties("");
  }

  /** Among the values is this one, up to case and white space around it. */
  ghost predicate Has(values: seq<string>, v: string) {
    exists i :: 0 <= i < |values| && Lower(Trim(values[i])) == Lower(Trim(v))
  }

  lemma ContainsMeans(want: string, haystack: seq<string>)
    ensures ContainsFold(want, haystack) <==> !Blank(want) && Has(haystack, want)
  {
    TrimProperties(want);
    forall i | 0 <= i < |haystack|
      ensures EqualFold(Trim(haystack[i]), Trim(want)) <==> Lower(Trim(haystack[i])) == Lower(Trim(want))
    {
      EqualFoldIsLowerEqual(Trim(haystack[i]), Trim(want));
    }
  }

  /** Ids and names match whatever the case, unless the criterion is blank; kinds exactly. */
  lemma IdentityCriteria(x: string, d: Descriptor)
    ensures Matches(ANY.(id := x), d) <==> Blank(x) || Lower(Trim(x)) == Lower(d.id)
    ensures Matches(ANY.(name := x), d) <==> Blank(x) || Lower(Trim(x)) == Lower(d.name)
    ensures Matches(ANY.(kind := x), d) <==> x == "" || x == d.kind
  {
    AnyMatches(d);
    TrimProperties(x);
    EqualFoldIsLowerEqual(Trim(x), d.id);
    EqualFoldIsLowerEqual(Trim(x), d.name);
  }

  /** All wanted tags and none of the excluded ones; a blank tag is never there. */
  lemma TagCriteria(xs: seq<string>, d: Descriptor)
    ensures Matches(ANY.(tags := xs), d) <==> forall i :: 0 <= i < |xs| ==> !Blank(xs[i]) && Has(d.tags, xs[i])
    ensures Matches(ANY.(excludeTags := xs), d) <==> forall i :: 0 <= i < |xs| ==> Blank(xs[i]) || !Has(d.tags, xs[i])
  {
    AnyMatches(d);
    forall i | 0 <= i < |xs| ensures ContainsFold(xs[i], d.tags) <==> !Blank(xs[i]) && Has(d.tags, xs[i]) {
      ContainsMeans(xs[i], d.tags);
    }
  }

  /** One of the listed families, scopes, trust classes, risks or effects. */
  lemma ClassCriteria(xs: seq<string>, d: Descriptor)
    ensures Matches(ANY.(runtimeFamilies := xs), d) <==> xs == [] || d.runtimeFamily in xs
    ensures Matches(ANY.(sourceScopes := xs), d) <==> xs == [] || d.scope in xs
    ensures Matches(ANY.(trustClasses := xs), d) <==> xs == [] || d.trustClass in xs
    ensures Matches(ANY.(riskClasses := xs), d) <==>
            xs == [] || exists x :: x in xs && x in Classify(d.effectClasses, d.scope)
    ensures Matches(ANY.(effectClasses := xs), d) <==> xs == [] || exists x :: x in xs && x in d.effectClasses
  {
    AnyMatches(d);
    OverlapMeans(xs, Classify(d.effectClasses, d.scope));
    OverlapMeans(xs, set e | e in d.effectClasses);
  }

  lemma OverlapMeans(wants: seq<string>, have: set<string>)
    ensures Overlap(wants, have) <==> exists x :: x in wants && x in have
  {
    if x :| x in wants && x in have {
      var i :| 0 <= i < |wants| && wants[i] == x;
    }
  }

  /** Whatever asks for coordination needs it to be there. */
  lemma CoordinationCriteria(xs: seq<string>, n: int, d: Descriptor)
    ensures var c := d.coordination;
            && (Matches(ANY.(roles := xs), d) <==> xs == [] || (c.Some? && c.value.role in xs))
            && (Matches(ANY.(taskTypes := xs), d) <==>
                  xs == [] || (c.Some? && forall i :: 0 <= i < |xs| ==> !Blank(xs[i]) && Has(c.value.taskTypes, xs[i])))
            && (Matches(ANY.(executionModes := xs), d) <==>
                  xs == [] || (c.Some? && exists x :: x in xs && x in c.value.executionModes))
            && (Matches(ANY.(longRunning := n), d) <==> n == 0 || (c.Some? && c.value.longRunning == n))
            && (Matches(ANY.(directInsertion := n), d) <==> n == 0 || (c.Some? && c.value.directInsertion == n))
  {
    AnyMatches(d);
    if d.coordination.Some? {
      var c := d.coordination.value;
      OverlapMeans(xs, set m | m in c.executionModes);
      forall i | 0 <= i < |xs| ensures ContainsFold(xs[i], c.taskTypes) <==> !Blank(xs[i]) && Has(c.taskTypes, xs[i]) {
        ContainsMeans(xs[i], c.taskTypes);
      }
    }
  }

  // ----- the compiled matcher -----

  function Normalize(s: string): string {
    Lower(Trim(s))
  }

  /** The non-blank values, normalized. */
  function NormalSet(values: seq<string>): set<string> {
    set i | 0 <= i < |values| && Normalize(values[i]) != "" :: Normalize(values[i])
  }

  method NormalizedStringSet(values: seq<string>) returns (out: set<string>)
    ensures out == NormalSet(values)
  {
    out := {};
    for k := 0 to |values|
      invariant out == NormalSet(values[..k])
    {
      assert values[..k + 1] == values[..k] + [values[k]];
      NormalSetAppend(values[..k], values[k]);
      var normalized := Normalize(values[k]);
      if normalized != "" {
        out := out + {normalized};
      }
    }
    assert values[..|values|] == values;
  }

  lemma NormalSetAppend(values: seq<string>, v: string)
    ensures NormalSet(values + [v]) == NormalSet(values) + (if Normalize(v) != "" then {Normalize(v)} else {})
  {
    var all := values + [v];
    forall x | x in NormalSet(values) ensures x in NormalSet(all) {
      var i :| 0 <= i < |values| && Normalize(values[i]) != "" && Normalize(values[i]) == x;
      assert all[i] == values[i];
    }
    if Normalize(v) != "" { assert all[|values|] == v; }
  }

  method SetOf(values: seq<string>) returns (out: set<string>)
    ensures out == set v | v in values
  {
    out := {};
    for k := 0 to |values|
      invariant out == set v | v in values[..k]
    {
      assert values[..k + 1] == values[..k] + [values[k]];
      out := out + {values[k]};
    }
    assert values[..|values|] == values;
  }

  datatype Compiled = Compiled(
    id: string, name: string, kind: string,
    runtimeFamilies: set<string>, tags: set<string>, excludeTags: set<string>,
    sourceScopes: set<string>, trustClasses: set<string>, riskClasses: set<string>, effectClasses: set<string>,
    roles: set<string>, taskTypes: set<string>, executionModes: set<string>,
    longRunning: int, directInsertion: int)

  datatype Profile = Profile(
    id: string, name: string, kind: string, runtimeFamily: string, scope: string, trustClass: string,
    tags: set<string>, riskClasses: set<string>, effectClasses: set<string>,
    hasCoordination: bool, role: string, taskTypes: set<string>, executionModes: set<string>,
    longRunning: int, directInsertion: int)

  function Elements(values: seq<string>): set<string> {
    set v | v in values
  }

  function Compile(s: Selector): Compiled {
    Compiled(Normalize(s.id), Normalize(s.name), s.kind, Elements(s.runtimeFamilies),
             NormalSet(s.tags), NormalSet(s.excludeTags), Elements(s.sourceScopes), Elements(s.trustClasses),
             Elements(s.riskClasses), Elements(s.effectClasses), Elements(s.roles), NormalSet(s.taskTypes),
             Elements(s.executionModes), s.longRunning, s.directInsertion)
  }

  method CompileSelector(s: Selector) returns (c: Compiled)
    ensures c == Compile(s)
  {
    var families := SetOf(s.runtimeFamilies);
    var tags := NormalizedStringSet(s.tags);
    var excluded := NormalizedStringSet(s.excludeTags);
    var scopes := SetOf(s.sourceScopes);
    var trust := SetOf(s.trustClasses);
    var risks := SetOf(s.riskClasses);
    var effects := SetOf(s.effectClasses);
    var roles := SetOf(s.roles);
    var taskTypes := NormalizedStringSet(s.taskTypes);
    var modes := SetOf(s.executionModes);
    c := Compiled(Normalize(s.id), Normalize(s.name), s.kind, families, tags, excluded, scopes, trust,
                  risks, effects, roles, taskTypes, modes, s.longRunning, s.directInsertion);
  }

  function ProfileOf(d: Descriptor): Profile {
    var c := if d.coordination.Some? then d.coordination.value else Coordination("", [], [], UNSET, UNSET);
    Profile(Normalize(d.id), Normalize(d.name), d.kind, d.runtimeFamily, d.scope, d.trustClass,
            NormalSet(d.tags), Classify(d.effectClasses, d.scope), Elements(d.effectClasses),
            d.coordination.Some?, c.role, NormalSet(c.taskTypes), Elements(c.executionModes),
            c.longRunning, c.directInsertion)
  }

  method BuildDescriptorProfile(d: Descriptor) returns (p: Profile)
    ensures p == ProfileOf(d)
  {
    var tags := NormalizedStringSet(d.tags);
    var effects := SetOf(d.effectClasses);
    var role, longRunning, directInsertion := "", UNSET, UNSET;
    var taskTypes: set<string>, modes: set<string> := {}, {};
    if d.coordination.Some? {
      role := d.coordination.value.role;
      longRunning := d.coordination.value.longRunning;
      directInsertion := d.coordination.value.directInsertion;
      taskTypes := NormalizedStringSet(d.coordination.value.taskTypes);
      modes := SetOf(d.coordination.value.executionModes);
    }
    p := Profile(Normalize(d.id), Normalize(d.name), d.kind, d.runtimeFamily, d.scope, d.trustClass,
                 tags, Classify(d.effectClasses, d.scope), effects,
                 d.coordination.Some?, role, taskTypes, modes, longRunning, directInsertion);
  }

  predicate CompiledMatches(s: Compiled, p: Profile) {
    && (s.id == "" || s.id == p.id)
    && (s.name == "" || s.name == p.name)
    && (s.kind == "" || s.kind == p.kind)
    && (s.runtimeFamilies == {} || p.runtimeFamily in s.runtimeFamilies)
    && (s.tags == {} || s.tags <= p.tags)
    && (s.excludeTags == {} || s.excludeTags !! p.tags)
    && (s.sourceScopes == {} || p.scope in s.sourceScopes)
    && (s.trustClasses == {} || p.trustClass in s.trustClasses)
    && (s.riskClasses == {} || !(s.riskClasses !! p.riskClasses))
    && (s.effectClasses == {} || !(s.effectClasses !! p.effectClasses))
    && (s.roles == {} || (p.hasCoordination && p.role in s.roles))
    && (s.taskTypes == {} || (p.hasCoordination && s.taskTypes <= p.taskTypes))
    && (s.executionModes == {} || (p.hasCoordination && !(s.executionModes !! p.executionModes)))
    && (s.longRunning == UNSET || (p.hasCoordination && p.longRunning == s.longRunning))
    && (s.directInsertion == UNSET || (p.hasCoordination && p.directInsertion == s.directInsertion))
  }

  // ----- what compilation means -----

  /** The selector without blank tags and task types. */
  function NonBlank(values: seq<string>): (r: seq<string>)
    ensures forall i :: 0 <= i < |r| ==> r[i] in values && !Blank(r[i])
    ensures forall i :: 0 <= i < |values| && !Blank(values[i]) ==> values[i] in r
    ensures (forall i :: 0 <= i < |values| ==> !Blank(values[i])) ==> r == values
  {
    if values == [] then []
    else
      var rest := NonBlank(values[1..]);
      assert values == [values[0]] + values[1..];
      if Blank(values[0]) then rest else [values[0]] + rest
  }

  function WithoutBlanks(s: Selector): Selector {
    s.(tags := NonBlank(s.tags), excludeTags := NonBlank(s.excludeTags), taskTypes := NonBlank(s.taskTypes))
  }

  function Trimmed(d: Descriptor): Descriptor {
    d.(id := Trim(d.id), name := Trim(d.name))
  }

  lemma NormalizeBlank(s: string)
    ensures Normalize(s) == "" <==> Blank(s)
    ensures Trim(s) == "" <==> Blank(s)
  {
    TrimProperties(s);
  }

  lemma FoldIsNormalEqual(a: string, b: string)
    ensures EqualFold(Trim(a), Trim(b)) <==> Normalize(a) == Normalize(b)
  {
    EqualFoldIsLowerEqual(Trim(a), Trim(b));
  }

  lemma ContainsIsMember(want: string, haystack: seq<string>)
    requires !Blank(want)
    ensures ContainsFold(want, haystack) <==> Normalize(want) in NormalSet(haystack)
  {
    NormalizeBlank(want);
    if ContainsFold(want, haystack) {
      var i :| 0 <= i < |haystack| && EqualFold(Trim(haystack[i]), Trim(want));
      FoldIsNormalEqual(haystack[i], want);
    }
    if Normalize(want) in NormalSet(haystack) {
      var i :| 0 <= i < |haystack| && Normalize(haystack[i]) != "" && Normalize(haystack[i]) == Normalize(want);
      FoldIsNormalEqual(haystack[i], want);
    }
  }

  lemma NormalSetMember(values: seq<string>, w: string)
    requires w in values && !Blank(w)
    ensures Normalize(w) in NormalSet(values)
  {
    NormalizeBlank(w);
    var i :| 0 <= i < |values| && values[i] == w;
  }

  lemma AllIsSubset(wants: seq<string>, haystack: seq<string>)
    ensures ContainsAllFold(NonBlank(wants), haystack) <==> NormalSet(wants) <= NormalSet(haystack)
    ensures NonBlank(wants) == [] <==> NormalSet(wants) == {}
  {
    var ws := NonBlank(wants);
    if ContainsAllFold(ws, haystack) {
      forall x | x in NormalSet(wants) ensures x in NormalSet(haystack) {
        var i :| 0 <= i < |wants| && Normalize(wants[i]) != "" && Normalize(wants[i]) == x;
        NormalizeBlank(wants[i]);
        var k :| 0 <= k < |ws| && ws[k] == wants[i];
        ContainsIsMember(ws[k], haystack);
      }
    }
    if NormalSet(wants) <= NormalSet(haystack) {
      forall k | 0 <= k < |ws| ensures ContainsFold(ws[k], haystack) {
        NormalSetMember(wants, ws[k]);
        ContainsIsMember(ws[k], haystack);
      }
    }
    if ws != [] { NormalSetMember(wants, ws[0]); }
    if x :| x in NormalSet(wants) {
      var i :| 0 <= i < |wants| && Normalize(wants[i]) != "" && Normalize(wants[i]) == x;
      NormalizeBlank(wants[i]);
      assert wants[i] in ws;
    }
  }

  lemma AnyIsOverlap(wants: seq<string>, haystack: seq<string>)
    ensures ContainsAnyFold(NonBlank(wants), haystack) <==> !(NormalSet(wants) !! NormalSet(haystack))
  {
    var ws := NonBlank(wants);
    if k :| 0 <= k < |ws| && ContainsFold(ws[k], haystack) {
      NormalSetMember(wants, ws[k]);
      ContainsIsMember(ws[k], haystack);
    }
    if x :| x in NormalSet(wants) && x in NormalSet(haystack) {
      var i :| 0 <= i < |wants| && Normalize(wants[i]) != "" && Normalize(wants[i]) == x;
      NormalizeBlank(wants[i]);
      var k :| 0 <= k < |ws| && ws[k] == wants[i];
      ContainsIsMember(ws[k], haystack);
    }
  }

  lemma OverlapIsOverlap(wants: seq<string>, have: set<string>)
    ensures Overlap(wants, have) <==> !(Elements(wants) !! have)
    ensures wants == [] <==> Elements(wants) == {}
  {
    if i :| 0 <= i < |wants| && wants[i] in have { assert wants[i] in Elements(wants) * have; }
    if x :| x in Elements(wants) && x in have {
      var i :| 0 <= i < |wants| && wants[i] == x;
    }
    if wants != [] { assert wants[0] in Elements(wants); }
  }

  lemma NameMatches(want: string, have: string)
    ensures (Trim(want) == "" || EqualFold(Trim(want), Trim(have))) <==>
            (Normalize(want) == "" || Normalize(want) == Normalize(have))
  {
    NormalizeBlank(want);
    FoldIsNormalEqual(want, have);
  }

  /** For every selector and every descriptor, without exception: matching the compiled selector
      against the compiled profile is plain matching of the selector without its blank tags and
      task types against the descriptor with id and name trimmed. */
  lemma CompilationMeaning(s: Selector, d: Descriptor)
    ensures CompiledMatches(Compile(s), ProfileOf(d)) <==> Matches(WithoutBlanks(s), Trimmed(d))
  {
    NameMatches(s.id, d.id);
    NameMatches(s.name, d.name);
    OverlapIsOverlap(s.runtimeFamilies, {});
    OverlapIsOverlap(s.sourceScopes, {});
    OverlapIsOverlap(s.trustClasses, {});
    OverlapIsOverlap(s.roles, {});
    TagsMeaning(s, d);
    ClassesMeaning(s, d);
    CoordinationMeaning(s, d);
  }

  lemma TagsMeaning(s: Selector, d: Descriptor)
    ensures (NormalSet(s.tags) == {} || NormalSet(s.tags) <= NormalSet(d.tags)) <==>
            (NonBlank(s.tags) == [] || ContainsAllFold(NonBlank(s.tags), d.tags))
    ensures (NormalSet(s.excludeTags) == {} || NormalSet(s.excludeTags) !! NormalSet(d.tags)) <==>
            (NonBlank(s.excludeTags) == [] || !ContainsAnyFold(NonBlank(s.excludeTags), d.tags))
  {
    AllIsSubset(s.tags, d.tags);
    AllIsSubset(s.excludeTags, d.tags);
    AnyIsOverlap(s.excludeTags, d.tags);
  }

  lemma ClassesMeaning(s: Selector, d: Descriptor)
    ensures (Elements(s.riskClasses) == {} || !(Elements(s.riskClasses) !! Classify(d.effectClasses, d.scope))) <==>
            (s.riskClasses == [] || Overlap(s.riskClasses, Classify(d.effectClasses, d.scope)))
    ensures (Elements(s.effectClasses) == {} || !(Elements(s.effectClasses) !! Elements(d.effectClasses))) <==>
            (s.effectClasses == [] || Overlap(s.effectClasses, set e | e in d.effectClasses))
  {
    OverlapIsOverlap(s.riskClasses, Classify(d.effectClasses, d.scope));
    OverlapIsOverlap(s.effectClasses, Elements(d.effectClasses));
    assert Elements(d.effectClasses) == set e | e in d.effectClasses;
  }

  lemma CoordinationMeaning(s: Selector, d: Descriptor)
    ensures var c, p := Compile(s), ProfileOf(d);
            && ((c.taskTypes == {} || (p.hasCoordination && c.taskTypes <= p.taskTypes)) <==>
                (NonBlank(s.taskTypes) == [] ||
                 (d.coordination.Some? && ContainsAllFold(NonBlank(s.taskTypes), d.coordination.value.taskTypes))))
            && ((c.executionModes == {} || (p.hasCoordination && !(c.executionModes !! p.executionModes))) <==>
                (s.executionModes == [] ||
                 (d.coordination.Some? &&
                  Overlap(s.executionModes, set m | m in d.coordination.value.executionModes))))
  {
    var modes := if d.coordination.Some? then d.coordination.value.executionModes else [];
    var types := if d.coordination.Some? then d.coordination.value.taskTypes else [];
    AllIsSubset(s.taskTypes, types);
    OverlapIsOverlap(s.executionModes, Elements(modes));
    assert Elements(modes) == set m | m in modes;
  }

  // ----- validated selectors -----

  const FAMILIES := {"local-tool", "provider", "relurpic"}
  const SCOPES := {"builtin", "workspace", "provider", "remote"}
  const TRUST := {"builtin-trusted", "workspace-trusted", "llm-generated", "tool-result",
                  "provider-local-untrusted", "remote-declared-untrusted", "remote-approved"}
  const RISKS :=
    {"read-only", "destructive", "execute", "network", "credentialed", "exfiltration-sensitive", "sessioned"}
  const EFFECTS := {"filesystem-mutation", "process-spawn", "network-egress", "credential-use", "external-state",
                    "session-creation", "context-insertion"}
  const ROLES := {"planner", "architect", "reviewer", "verifier", "executor", "domain-pack", "background-agent"}
  const MODES := {"sync", "session-backed", "background-service"}

  predicate NoBlanks(values: seq<string>) {
    forall i :: 0 <= i < |values| ==> !Blank(values[i])
  }

  predicate AllIn(values: seq<string>, known: set<string>) {
    forall i :: 0 <= i < |values| ==> values[i] in known
  }

  /** ValidateCapabilitySelector returns nil. */
  predicate Validated(s: Selector) {
    && !(Blank(s.id) && Blank(s.name) && s == ANY.(id := s.id, name := s.name))
    && NoBlanks(s.tags) && NoBlanks(s.excludeTags) && NoBlanks(s.taskTypes)
    && AllIn(s.sourceScopes, SCOPES) && AllIn(s.runtimeFamilies, FAMILIES) && AllIn(s.trustClasses, TRUST)
    && AllIn(s.riskClasses, RISKS) && AllIn(s.effectClasses, EFFECTS) && AllIn(s.roles, ROLES)
    && AllIn(s.executionModes, MODES)
    && 0 <= s.longRunning <= 2 && 0 <= s.directInsertion <= 2
  }

  /** Validation of one criterion: blank tags and unknown classes are refused, and so is a selector
      without any criterion. */
  lemma ValidatedCriteria(x: string)
    ensures Validated(ANY.(tags := [x])) <==> !Blank(x)
    ensures Validated(ANY.(excludeTags := [x])) <==> !Blank(x)
    ensures Validated(ANY.(taskTypes := [x])) <==> !Blank(x)
    ensures Validated(ANY.(id := x)) <==> !Blank(x)
    ensures Validated(ANY.(name := x)) <==> !Blank(x)
    ensures Validated(ANY.(sourceScopes := [x])) <==> x in {"builtin", "workspace", "provider", "remote"}
    ensures Validated(ANY.(runtimeFamilies := [x])) <==> x in {"local-tool", "provider", "relurpic"}
    ensures Validated(ANY.(executionModes := [x])) <==> x in {"sync", "session-backed", "background-service"}
  {
    assert [x][0] == x && Blank("");
    assert !Validated(ANY);
  }

  lemma ValidatedClasses(x: string, n: int)
    ensures Validated(ANY.(effectClasses := [x])) <==>
            x in {"filesystem-mutation", "process-spawn", "network-egress", "credential-use", "external-state",
                  "session-creation", "context-insertion"}
    ensures Validated(ANY.(riskClasses := [x])) <==>
            x in {"read-only", "destructive", "execute", "network", "credentialed", "exfiltration-sensitive",
                  "sessioned"}
    ensures Validated(ANY.(longRunning := n)) <==> n == 1 || n == 2
    ensures Validated(ANY.(directInsertion := n)) <==> n == 1 || n == 2
  {
    assert [x][0] == x && Blank("");
    assert !Validated(ANY);
  }

  lemma ValidatedIdentities(x: string)
    ensures Validated(ANY.(trustClasses := [x])) <==>
            x in {"builtin-trusted", "workspace-trusted", "llm-generated", "tool-result", "provider-local-untrusted",
                  "remote-declared-untrusted", "remote-approved"}
    ensures Validated(ANY.(roles := [x])) <==>
            x in {"planner", "architect", "reviewer", "verifier", "executor", "domain-pack", "background-agent"}
  {
    assert [x][0] == x && Blank("");
    assert !Validated(ANY);
  }

  /** Descriptor identity as the plain matcher expects it. */
  predicate TrimmedOrBlank(s: string) {
    Trim(s) == s || Blank(s)
  }

  lemma FoldAgainstBlank(want: string, have: string)
    requires TrimmedOrBlank(have) && Trim(want) != ""
    ensures EqualFold(Trim(want), have) <==> EqualFold(Trim(want), Trim(have))
  {
    if Trim(have) != have {
      TrimProperties(have);
      TrimProperties(want);
      if |Trim(want)| == |have| {
        LowerKeepsSpace(Trim(want)[0]);
        LowerKeepsSpace(have[0]);
      }
    }
  }

  /** For every selector validation accepts and every descriptor with trimmed (or blank) id and
      name, the two matchers agree. */
  lemma MatchersAgree(s: Selector, d: Descriptor)
    requires Validated(s) && TrimmedOrBlank(d.id) && TrimmedOrBlank(d.name)
    ensures CompiledMatches(Compile(s), ProfileOf(d)) <==> Matches(s, d)
  {
    CompilationMeaning(s, d);
    assert WithoutBlanks(s) == s;
    if Trim(s.id) != "" { FoldAgainstBlank(s.id, d.id); }
    if Trim(s.name) != "" { FoldAgainstBlank(s.name, d.name); }
  }

  /** A selector for exactly this id. */
  lemma UntrimmedIdDiffers(d: Descriptor)
    requires !TrimmedOrBlank(d.id)
    ensures var s := ANY.(id := Trim(d.id));
            Validated(s) && CompiledMatches(Compile(s), ProfileOf(d)) && !Matches(s, d)
  {
    var s := ANY.(id := Trim(d.id));
    TrimDiffers(d.id);
    CompilationMeaning(s, d);
  }

  lemma UntrimmedNameDiffers(d: Descriptor)
    requires !TrimmedOrBlank(d.name)
    ensures var s := ANY.(name := Trim(d.name));
            Validated(s) && CompiledMatches(Compile(s), ProfileOf(d)) && !Matches(s, d)
  {
    var s := ANY.(name := Trim(d.name));
    TrimDiffers(d.name);
    CompilationMeaning(s, d);
  }

  lemma TrimDiffers(text: string)
    requires !TrimmedOrBlank(text)
    ensures !Blank(Trim(text)) && Trim(Trim(text)) == Trim(text)
    ensures !EqualFold(Trim(Trim(text)), text) && EqualFold(Trim(Trim(text)), Trim(text))
  {
    TrimProperties(text);
    TrimIdempotent(text);
    TrimProperties(Trim(text));
  }

  /** Exactly the descriptors on which every validated selector means the same in both forms. */
  lemma DescriptorsThatAgree(d: Descriptor)
    ensures (forall s :: Validated(s) ==> (CompiledMatches(Compile(s), ProfileOf(d)) <==> Matches(s, d)))
            <==> TrimmedOrBlank(d.id) && TrimmedOrBlank(d.name)
  {
    if TrimmedOrBlank(d.id) && TrimmedOrBlank(d.name) {
      forall s | Validated(s) ensures CompiledMatches(Compile(s), ProfileOf(d)) <==> Matches(s, d) {
        MatchersAgree(s, d);
      }
    } else if !TrimmedOrBlank(d.id) {
      UntrimmedIdDiffers(d);
    } else {
      UntrimmedNameDiffers(d);
    }
  }

  /** Why validation matters: a selector of one blank tag matches nothing plainly and everything
      once compiled. */
  lemma BlankTagDiffers(d: Descriptor)
    ensures var s := ANY.(tags := [" "]);
            !Validated(s) && !Matches(s, d) && CompiledMatches(Compile(s), ProfileOf(d))
  {
    var s := ANY.(tags := [" "]);
    assert Blank(s.tags[0]);
    NormalizeBlank(s.tags[0]);
    assert !ContainsFold(s.tags[0], d.tags);
    assert NormalSet(s.tags) == {};
    NormalizeBlank("");
  }
}
