/**
 * Silver selection: a scope binding, a pointer and a registry kept in separate files that are
 * written in that order, so that a crash can separate them. Selection and adoption run under one
 * lock; the stored versions are immutable.
 */
module SilverSelection {
  import opened Wrappers
  import opened Durability
  import Campaign

  type Scope = Campaign.Scope

  /** A version and the hash of its manifest. */
  datatype Target = Target(version: string, hash: string)

  /** The coverage receipt of a scoped version. */
  datatype Receipt = Receipt(scope: Scope, authoritative: bool, complete: bool, parent: Option<Target>, baseline: bool)

  /**
   * What is stored under a version. `inScope` says which scopes contain all its rows, and `inputs`
   * that it pins Bronze runs.
   */
  datatype Document = Document(hash: string, receipt: Option<Receipt>, preview: bool, drift: bool, legacy: bool,
                               inputs: bool, inScope: set<Scope>)

  type Versions = map<string, Document>

  datatype Adoption = Adoption(hash: string, scope: Scope)

  datatype State = State(binding: Option<Scope>, current: Option<Target>, registry: map<string, string>,
      adoptions: map<string, Adoption>)

  const EMPTY := State(None, None, map[], map[])

  function TargetOf(versions: Versions, version: string): Target
    requires version in versions
  {
    Target(version, versions[version].hash)
  }

  /** The scope that a version stands for in a bound workspace. */
  function ScopeOf(versions: Versions, s: State, version: string): Option<Scope>
    requires version in versions
  {
    if versions[version].receipt.Some? then Some(versions[version].receipt.value.scope)
    else if version in s.adoptions then Some(s.adoptions[version].scope) else None
  }

  // ---- Selecting --------------------------------------------------------------------------

  datatype Select = Select(version: string, expected: Option<Target>, restore: bool)

  /** May this version be selected at all, apart from what is active now? */
  predicate Selectable(versions: Versions, s: State, version: string)
    requires version in versions
  {
    var d := versions[version];
    && !d.preview
    && (d.receipt.Some? ==> d.receipt.value.authoritative && d.receipt.value.complete && !d.drift)
    && (s.binding.Some? ==>
          && (version in s.adoptions ==> s.adoptions[version].hash == d.hash)
          && ScopeOf(versions, s, version) == s.binding)
    && (version in s.registry ==> s.registry[version] == d.hash)
  }

  predicate Allowed(versions: Versions, s: State, r: Select) {
    && r.version in versions && Selectable(versions, s, r.version)
    && var target, receipt := TargetOf(versions, r.version), versions[r.version].receipt;
       if s.current == Some(target) then receipt.Some? ==> s.binding.Some?
       else if r.restore then r.version in s.registry && r.expected == s.current
       else receipt.Some? && receipt.value.parent == s.current
            && (s.current.Some? ==> receipt.value.baseline && s.binding.Some?)
  }

  function BoundBy(versions: Versions, s: State, version: string): State
    requires version in versions
  {
    if versions[version].receipt.Some? && s.binding.None? then s.(binding := Some(versions[version].receipt.value.scope)) else s
  }

  function Registered(s: State, t: Target): State { s.(registry := s.registry[t.version := t.hash]) }

  /** Every state that a selection can leave behind, complete or interrupted. */
  predicate SelectionStage(versions: Versions, s: State, r: Select, t: State)
    requires r.version in versions
  {
    var target := TargetOf(versions, r.version);
    var bound := BoundBy(versions, s, r.version);
    || t == s
    || (s.current == Some(target) && t == Registered(s, target))
    || (s.current != Some(target) && (t == bound || t == bound.(current := Some(target)) || t == Registered(bound.(current := Some(target)), target)))
  }

  /** What an uninterrupted selection leaves. */
  function Selected(versions: Versions, s: State, r: Select): State
    requires r.version in versions
  {
    var target := TargetOf(versions, r.version);
    if s.current == Some(target) then Registered(s, target)
    else Registered(BoundBy(versions, s, r.version).(current := Some(target)), target)
  }

  // ---- Adopting ---------------------------------------------------------------------------

  predicate Adoptable(versions: Versions, s: State, version: string, scope: Scope) {
    && version in versions
    && var d := versions[version];
       && d.legacy && d.receipt.None? && !d.preview && d.inputs && scope in d.inScope
       && s.current == Some(TargetOf(versions, version))
       && (s.binding.Some? ==> s.binding.value == scope)
       && (version in s.adoptions ==> s.adoptions[version] == Adoption(d.hash, scope))
  }

  function Recorded(versions: Versions, s: State, version: string, scope: Scope): State
    requires version in versions
  {
    s.(adoptions := s.adoptions[version := Adoption(versions[version].hash, scope)])
  }

  /** What an uninterrupted adoption leaves. */
  function Adopted(versions: Versions, s: State, version: string, scope: Scope): State
    requires version in versions
  {
    Registered(Recorded(versions, s, version, scope).(binding := Some(scope)), TargetOf(versions, version))
  }

  predicate AdoptionStage(versions: Versions, s: State, version: string, scope: Scope, t: State)
    requires version in versions
  {
    var recorded := Recorded(versions, s, version, scope);
    || t == s || t == recorded || t == recorded.(binding := Some(scope))
    || t == Registered(recorded.(binding := Some(scope)), TargetOf(versions, version))
  }

  // ---- What every state keeps -------------------------------------------------------------

  /** `past` are the targets that were ever active. */
  predicate Kept(versions: Versions, s: State, past: set<Target>) {
    && (s.current.Some? ==> s.current.value in past)
    && (forall t :: t in past ==> t.version in versions && versions[t.version].hash == t.hash)
    && (forall v :: v in s.registry ==> Target(v, s.registry[v]) in past)
    && (forall v :: v in s.adoptions ==>
          Target(v, s.adoptions[v].hash) in past && versions[v].receipt.None? && s.adoptions[v].scope in versions[v].inScope)
    && (forall t :: t in past && versions[t.version].receipt.Some? ==> s.binding == Some(versions[t.version].receipt.value.scope))
    && (s.binding.Some? && s.current.Some? ==> ScopeOf(versions, s, s.current.value.version) == s.binding)
  }

  function PastAfter(past: set<Target>, t: State): set<Target> {
    if t.current.Some? then past + {t.current.value} else past
  }

  lemma BindingKept(versions: Versions, s: State, past: set<Target>, r: Select)
    requires Kept(versions, s, past) && Allowed(versions, s, r) && s.current != Some(TargetOf(versions, r.version))
    ensures Kept(versions, BoundBy(versions, s, r.version), past)
    ensures versions[r.version].receipt.Some? ==> BoundBy(versions, s, r.version).binding == Some(versions[r.version].receipt.value.scope)
  {
  }

  lemma PointerKept(versions: Versions, s: State, past: set<Target>, version: string)
    requires Kept(versions, s, past) && version in versions
    requires versions[version].receipt.Some? ==> s.binding == Some(versions[version].receipt.value.scope)
    requires s.binding.Some? ==> ScopeOf(versions, s, version) == s.binding
    ensures Kept(versions, s.(current := Some(TargetOf(versions, version))), past + {TargetOf(versions, version)})
  {
  }

  lemma RegistryKept(versions: Versions, s: State, past: set<Target>, t: Target)
    requires Kept(versions, s, past) && t in past
    ensures Kept(versions, Registered(s, t), past)
  {
  }

  /** No selection, complete or interrupted anywhere, breaks what every state keeps or moves the binding. */
  lemma SelectionKeeps(versions: Versions, s: State, past: set<Target>, r: Select, t: State)
    requires Kept(versions, s, past) && Allowed(versions, s, r) && SelectionStage(versions, s, r, t)
    ensures Kept(versions, t, PastAfter(past, t))
    ensures s.binding.Some? ==> t.binding == s.binding
  {
    ActiveInPast(versions, s, past);
    var target, bound := TargetOf(versions, r.version), BoundBy(versions, s, r.version);
    if s.current != Some(target) {
      BindingKept(versions, s, past, r);
      assert bound.binding.Some? ==> ScopeOf(versions, bound, r.version) == bound.binding;
      hide Kept, Allowed;
      ActiveInPast(versions, bound, past);
      PointerKept(versions, bound, past, r.version);
      RegistryKept(versions, bound.(current := Some(target)), past + {target}, target);
    } else {
      RegistryKept(versions, s, past, target);
      hide Kept, Allowed;
    }
  }

  lemma AdoptionKeeps(versions: Versions, s: State, past: set<Target>, version: string, scope: Scope, t: State)
    requires Kept(versions, s, past) && Adoptable(versions, s, version, scope) && AdoptionStage(versions, s, version, scope, t)
    ensures Kept(versions, t, PastAfter(past, t))
    ensures s.binding.Some? ==> t.binding == s.binding
  {
  }

  /** A selection interrupted anywhere can be repeated with the same arguments: it is allowed again. */
  lemma SelectionRepeats(versions: Versions, s: State, past: set<Target>, r: Select, t: State)
    requires Kept(versions, s, past) && Allowed(versions, s, r) && SelectionStage(versions, s, r, t)
    ensures Allowed(versions, t, r)
  {
  }

  lemma AdoptionRepeats(versions: Versions, s: State, version: string, scope: Scope, t: State)
    requires Adoptable(versions, s, version, scope) && AdoptionStage(versions, s, version, scope, t)
    ensures Adoptable(versions, t, version, scope)
  {
  }

  /**
   * Interruptions leave no trace: from any stage of a selection, repeating it passes only through
   * stages of the first attempt and ends in the files that an uninterrupted selection leaves.
   */
  lemma SelectionConverges(versions: Versions, s: State, r: Select, t: State, u: State)
    requires Allowed(versions, s, r) && SelectionStage(versions, s, r, t) && SelectionStage(versions, t, r, u)
    ensures SelectionStage(versions, s, r, u)
    ensures Selected(versions, t, r) == Selected(versions, s, r)
  {
    var target := TargetOf(versions, r.version);
    assert Registered(Registered(s, target), target) == Registered(s, target);
    var pointed := BoundBy(versions, s, r.version).(current := Some(target));
    assert Registered(Registered(pointed, target), target) == Registered(pointed, target);
  }

  lemma AdoptionConverges(versions: Versions, s: State, version: string, scope: Scope, t: State, u: State)
    requires Adoptable(versions, s, version, scope) && AdoptionStage(versions, s, version, scope, t)
    requires AdoptionStage(versions, t, version, scope, u)
    ensures AdoptionStage(versions, s, version, scope, u)
    ensures Adopted(versions, t, version, scope) == Adopted(versions, s, version, scope)
  {
    var target := TargetOf(versions, version);
    var recorded := Recorded(versions, s, version, scope);
    assert Recorded(versions, recorded, version, scope) == recorded;
    var bound := recorded.(binding := Some(scope));
    assert Recorded(versions, bound, version, scope) == bound;
    assert Recorded(versions, Registered(bound, target), version, scope) == Registered(bound, target);
    assert Registered(Registered(bound, target), target) == Registered(bound, target);
  }

  /**
   * A scoped version that is not active is selected anew exactly when it is complete and without
   * drift, in the scope of a bound workspace, and built on what is active now; over an active
   * version it also needs a baseline and a bound workspace. Nothing unscoped is selected anew.
   */
  lemma CandidateAllowed(versions: Versions, s: State, past: set<Target>, r: Select)
    requires Kept(versions, s, past) && !r.restore && r.version in versions && s.current != Some(TargetOf(versions, r.version))
    ensures var d := versions[r.version];
            Allowed(versions, s, r) <==>
              && !d.preview && d.receipt.Some? && d.receipt.value.authoritative && d.receipt.value.complete && !d.drift
              && (s.binding.Some? ==> d.receipt.value.scope == s.binding.value)
              && d.receipt.value.parent == s.current
              && (s.current.Some? ==> d.receipt.value.baseline && s.binding.Some?)
  {
  }

  /** What a completed selection leaves, file by file. */
  lemma SelectedFiles(versions: Versions, s: State, r: Select)
    requires r.version in versions
    ensures var d, t := versions[r.version], Selected(versions, s, r);
            && t.current == Some(Target(r.version, d.hash)) && t.adoptions == s.adoptions
            && t.registry == s.registry[r.version := d.hash]
            && t.binding == (if s.binding.None? && d.receipt.Some? && s.current != t.current then Some(d.receipt.value.scope)
                             else s.binding)
  {
  }

  /** When the active legacy version can be bound to a scope, and what that leaves. */
  lemma AdoptionExact(versions: Versions, s: State, past: set<Target>, version: string, scope: Scope)
    requires Kept(versions, s, past) && version in versions
    ensures var d := versions[version];
            Adoptable(versions, s, version, scope) <==>
              && s.current == Some(Target(version, d.hash)) && d.legacy && d.receipt.None? && !d.preview && d.inputs
              && scope in d.inScope && (s.binding.Some? ==> s.binding.value == scope)
              && (version in s.adoptions ==> s.adoptions[version].scope == scope)
    ensures var d, t := versions[version], Adopted(versions, s, version, scope);
            && t.current == s.current && t.binding == Some(scope)
            && t.adoptions == s.adoptions[version := Adoption(d.hash, scope)]
            && t.registry == s.registry[version := d.hash]
  {
  }

  /** The workspace has no scope, or the version stands for it, by its receipt or by adoption. */
  predicate InScope(versions: Versions, s: State, version: string)
    requires version in versions
  {
    s.binding.Some? ==>
      if versions[version].receipt.Some? then versions[version].receipt.value.scope == s.binding.value
      else version in s.adoptions && s.adoptions[version].scope == s.binding.value
  }

  /**
   * A version that is not active is restored exactly when it was registered, the caller names what is
   * active, it belongs to the scope of the workspace, and, if scoped, it is complete and without drift.
   */
  lemma RestorationAllowed(versions: Versions, s: State, past: set<Target>, r: Select)
    requires Kept(versions, s, past) && r.restore && r.version in versions && s.current != Some(TargetOf(versions, r.version))
    ensures var d := versions[r.version];
            Allowed(versions, s, r) <==>
              && r.version in s.registry && r.expected == s.current && InScope(versions, s, r.version) && !d.preview
              && (d.receipt.Some? ==> d.receipt.value.authoritative && d.receipt.value.complete && !d.drift)
  {
  }

  /** Selecting what is active again is allowed unless it is a preview, incomplete, with drift or unbound. */
  lemma RepeatAllowed(versions: Versions, s: State, past: set<Target>, r: Select)
    requires Kept(versions, s, past) && r.version in versions && s.current == Some(TargetOf(versions, r.version))
    ensures var d := versions[r.version];
            Allowed(versions, s, r) <==>
              !d.preview && (d.receipt.Some? ==> d.receipt.value.authoritative && d.receipt.value.complete && !d.drift)
  {
  }

  /** Two candidates built on the same active version: once one is selected the other is stale. */
  lemma OneSuccessor(versions: Versions, s: State, a: Select, b: Select)
    requires Allowed(versions, s, a) && !a.restore && !b.restore && b.version in versions && a.version != b.version
    requires s.current != Some(TargetOf(versions, a.version))
    requires versions[a.version].receipt.Some? && versions[b.version].receipt.Some?
    requires versions[a.version].receipt.value.parent == versions[b.version].receipt.value.parent
    ensures SelectionStage(versions, s, a, Selected(versions, s, a)) && !Allowed(versions, Selected(versions, s, a), b)
  {
  }

  // ---- The files --------------------------------------------------------------------------

  datatype Signal = Done | Refused | Failed | Killed

  function SignalOf(write: Write): (s: Signal)
    ensures s == Done <==> write == Written
    ensures s == Failed <==> write == RaisedBefore || write == RaisedAfter
    ensures s == Killed <==> write == KilledBefore || write == KilledAfter
  {
    if write.Written? then Done else if write.Kills() then Killed else Failed
  }

  class SilverWorkspace {
    const versions: Versions
    const script: seq<Write>
    var next: nat
    var binding: Option<Scope>
    var current: Option<Target>
    var registry: map<string, string>
    var adoptions: map<string, Adoption>
    ghost var past: set<Target>

    function Files(): State
      reads this
    {
      State(binding, current, registry, adoptions)
    }

    ghost predicate Valid()
      reads this
    {
      Kept(versions, Files(), past)
    }

    constructor (versions: Versions, script: seq<Write>)
      ensures Valid() && Files() == EMPTY && this.versions == versions
    {
      this.versions, this.script := versions, script;
      next, binding, current, registry, adoptions, past := 0, None, None, map[], map[], {};
    }

    function At(i: nat): Write { if i < |script| then script[i] else KilledBefore }

    /** No write went wrong between two points. */
    predicate AllWritten(from: nat, to: nat) { forall i :: from <= i < to ==> At(i).Written? }

    method Draw() returns (w: Write)
      modifies `next
      ensures w == At(old(next)) && next == old(next) + 1
    {
      w := At(next);
      next := next + 1;
    }

    method WriteBinding(scope: Scope) returns (s: Signal)
      modifies `next, `binding
      ensures binding == old(binding) || binding == Some(scope)
      ensures s == Done ==> binding == Some(scope)
      ensures s == SignalOf(At(old(next))) && next == old(next) + 1
    {
      var w := Draw();
      if w.Lands() { binding := Some(scope); }
      s := SignalOf(w);
    }

    method WriteCurrent(target: Target) returns (s: Signal)
      modifies `next, `current, `past
      ensures (current == old(current) && past == old(past)) || (current == Some(target) && past == old(past) + {target})
      ensures s == Done ==> current == Some(target) && target in past
      ensures s == SignalOf(At(old(next))) && next == old(next) + 1
    {
      var w := Draw();
      if w.Lands() {
        current := Some(target);
        past := past + {target};
      }
      s := SignalOf(w);
    }

    method WriteRegistry(target: Target) returns (s: Signal)
      modifies `next, `registry
      ensures registry == old(registry) || registry == old(registry)[target.version := target.hash]
      ensures s == Done ==> registry == old(registry)[target.version := target.hash]
      ensures s == SignalOf(At(old(next))) && next == old(next) + 1
    {
      var w := Draw();
      if w.Lands() { registry := registry[target.version := target.hash]; }
      s := SignalOf(w);
    }

    /** Selects a stored version. Whatever happens, the files are in a stage from which it can be repeated. */
    method SelectVersion(r: Select) returns (s: Signal)
      requires Valid() && r.version in versions
      modifies this
      ensures Valid() && old(past) <= past
      ensures s == Refused <==> !Allowed(versions, old(Files()), r)
      ensures old(next) <= next && (Allowed(versions, old(Files()), r) && AllWritten(old(next), next) ==> s == Done)
      ensures s == Refused ==> Files() == old(Files())
      ensures SelectionStage(versions, old(Files()), r, Files())
      ensures old(binding).Some? ==> binding == old(binding)
      ensures s != Refused ==> Allowed(versions, Files(), r)
      ensures s == Done ==> Files() == Selected(versions, old(Files()), r)
      ensures s == Done ==>
                && current == Some(TargetOf(versions, r.version))
                && r.version in registry && registry[r.version] == versions[r.version].hash
                && (versions[r.version].receipt.Some? ==> binding == Some(versions[r.version].receipt.value.scope))
    {
      hide Kept, Allowed;
      ghost var before, was := Files(), past;
      if !Allowed(versions, Files(), r) { return Refused; }
      s := RunSelect(r);
      SelectionKeeps(versions, before, was, r, Files());
      SelectionRepeats(versions, before, was, r, Files());
      if s == Done { SelectedBound(versions, Files(), past, r); }
    }

    method RunSelect(r: Select) returns (s: Signal)
      requires Valid() && r.version in versions && Allowed(versions, Files(), r)
      modifies this
      ensures past == PastAfter(old(past), Files())
      ensures SelectionStage(versions, old(Files()), r, Files())
      ensures s != Refused && old(next) <= next && (AllWritten(old(next), next) ==> s == Done)
      ensures s == Done ==> Files() == Selected(versions, old(Files()), r)
    {
      var target, receipt := TargetOf(versions, r.version), versions[r.version].receipt;
      s := Done;
      if current == Some(target) {
        if r.version !in registry || registry[r.version] != target.hash {
          s := WriteRegistry(target);
        } else {
          assert registry[target.version := target.hash] == registry;
        }
        return;
      }
      if receipt.Some? && binding.None? {
        s := WriteBinding(receipt.value.scope);
        if s != Done { return; }
      }
      s := WriteCurrent(target);
      if s != Done { return; }
      s := WriteRegistry(target);
    }

    /** Binds the active legacy version to a scope. */
    method AdoptVersion(version: string, scope: Scope) returns (s: Signal)
      requires Valid() && version in versions
      modifies this
      ensures Valid() && past == old(past)
      ensures s == Refused <==> !Adoptable(versions, old(Files()), version, scope)
      ensures old(next) <= next && (Adoptable(versions, old(Files()), version, scope) && AllWritten(old(next), next) ==> s == Done)
      ensures s == Refused ==> Files() == old(Files())
      ensures AdoptionStage(versions, old(Files()), version, scope, Files())
      ensures old(binding).Some? ==> binding == old(binding)
      ensures s != Refused ==> Adoptable(versions, Files(), version, scope)
      ensures s == Done ==> Files() == Adopted(versions, old(Files()), version, scope)
      ensures s == Done ==>
                && binding == Some(scope) && version in adoptions && adoptions[version].scope == scope
                && version in registry && registry[version] == versions[version].hash
    {
      hide Kept;
      ghost var before, was := Files(), past;
      if !Adoptable(versions, Files(), version, scope) { return Refused; }
      var w := Draw();
      if w.Lands() { adoptions := adoptions[version := Adoption(versions[version].hash, scope)]; }
      s := SignalOf(w);
      if s == Done {
        s := WriteBinding(scope);
        if s == Done { s := WriteRegistry(TargetOf(versions, version)); }
      }
      AdoptionKeeps(versions, before, was, version, scope, Files());
      AdoptionRepeats(versions, before, version, scope, Files());
      ActiveInPast(versions, before, was);
    }
  }

  lemma SelectedBound(versions: Versions, s: State, past: set<Target>, r: Select)
    requires Kept(versions, s, past) && r.version in versions && s.current == Some(TargetOf(versions, r.version))
    ensures versions[r.version].receipt.Some? ==> s.binding == Some(versions[r.version].receipt.value.scope)
  {
  }

  lemma ActiveInPast(versions: Versions, s: State, past: set<Target>)
    requires Kept(versions, s, past)
    ensures PastAfter(past, s) == past
  {
  }
}
