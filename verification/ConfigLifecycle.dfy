/** Versioned configurations and their lifecycle (M4/app/config/lifecycle.py). */
module ConfigLifecycle {
  import opened Results
  import opened EnrichmentModel

  datatype LifecycleState = DRAFT | ACTIVE | DEPRECATED | ROLLED_BACK

  datatype Managed = Managed(config: Config, state: LifecycleState)

  datatype Configs = Configs(items: map<string, Managed>, active: string)

  function Registered(s: Configs, m: Managed): Option<Configs> {
    if m.config.version in s.items || m.state != DRAFT then None
    else Some(s.(items := s.items[m.config.version := m]))
  }

  function Activated(s: Configs, v: string): Option<Configs> {
    if v !in s.items || s.items[v].state !in {DRAFT, ROLLED_BACK} then None
    else
      var demoted :=
        if s.active != "" && s.active in s.items && s.active != v
            then s.items[s.active := s.items[s.active].(state := DEPRECATED)]
        else s.items;
      Some(Configs(demoted[v := s.items[v].(state := ACTIVE)], v))
  }

  function RolledBack(s: Configs, v: string): Option<Configs> {
    if v !in s.items || s.active == "" || s.active !in s.items || s.items[s.active].config.version == v then None
    else
      var current := s.items[s.active];
      var items := s.items[current.config.version := current.(state := ROLLED_BACK)];
      Some(Configs(items[v := items[v].(state := ACTIVE)], v))
  }

  /** Exactly one configuration is ACTIVE, it is the one `get_active` returns, and each is filed under its version. */
  ghost predicate Inv(s: Configs) {
    && "" !in s.items && s.active in s.items
    && (forall v :: v in s.items ==> s.items[v].config.version == v)
    && (forall v :: v in s.items ==> (s.items[v].state == ACTIVE <==> v == s.active))
  }

  class ConfigurationManager {
    var configs: map<string, Managed>
    var activeVersion: string

    ghost function State(): Configs
      reads this
    {
      Configs(configs, activeVersion)
    }

    ghost predicate Valid()
      reads this
    {
      Inv(State())
    }

    constructor (initial: Config)
      requires initial.version == "1.0.0"
      ensures Valid() && State() == Configs(map["1.0.0" := Managed(initial, ACTIVE)], "1.0.0")
    {
      configs := map[initial.version := Managed(initial, ACTIVE)];
      activeVersion := initial.version;
    }

    method RegisterDraft(m: Managed) returns (ok: bool)
      requires Valid() && m.config.version != ""
      modifies this
      ensures Valid()
      ensures ok <==> Registered(old(State()), m).Some?
      ensures State() == if ok then Registered(old(State()), m).value else old(State())
    {
      if m.config.version in configs || m.state != DRAFT {
        return false;
      }
      configs := configs[m.config.version := m];
      return true;
    }

    method Activate(v: string) returns (ok: bool)
      requires Valid()
      modifies this
      ensures Valid()
      ensures ok <==> Activated(old(State()), v).Some?
      ensures State() == if ok then Activated(old(State()), v).value else old(State())
    {
      if v !in configs {
        return false;
      }
      var target := configs[v];
      if target.state != DRAFT && target.state != ROLLED_BACK {
        return false;
      }
      if activeVersion != "" && activeVersion in configs && activeVersion != v {
        configs := configs[activeVersion := configs[activeVersion].(state := DEPRECATED)];
      }
      configs := configs[v := target.(state := ACTIVE)];
      activeVersion := v;
      return true;
    }

    method Rollback(v: string) returns (ok: bool)
      requires Valid()
      modifies this
      ensures Valid()
      ensures ok <==> RolledBack(old(State()), v).Some?
      ensures State() == if ok then RolledBack(old(State()), v).value else old(State())
    {
      if v !in configs {
        return false;
      }
      var current := configs[activeVersion];
      if current.config.version == v {
        return false;
      }
      configs := configs[current.config.version := current.(state := ROLLED_BACK)];
      configs := configs[v := configs[v].(state := ACTIVE)];
      activeVersion := v;
      return true;
    }

    method GetActive() returns (m: Managed)
      requires Valid()
      ensures m.state == ACTIVE && m.config.version == activeVersion
      ensures m in configs.Values && forall v :: v in configs && configs[v].state == ACTIVE ==> configs[v] == m
    {
      m := configs[activeVersion];
    }
  }

  // ---- runs ----

  datatype Op = Register(m: Managed) | Activate(v: string) | Rollback(v: string)

  /** A refused call changes nothing. */
  function Step(s: Configs, op: Op): Configs {
    var r := match op
      case Register(m) => Registered(s, m)
      case Activate(v) => Activated(s, v)
      case Rollback(v) => RolledBack(s, v);
    if r.Some? then r.value else s
  }

  function At(s: Configs, ops: seq<Op>, n: nat): Configs
    requires n <= |ops|
  {
    if n == 0 then s else Step(At(s, ops, n - 1), ops[n - 1])
  }

  function Initial(c: Config): Configs {
    Configs(map[c.version := Managed(c, ACTIVE)], c.version)
  }

  ghost predicate WasActive(s: Configs, ops: seq<Op>, n: nat, v: string)
    requires n <= |ops|
  {
    exists k :: 0 <= k <= n && At(s, ops, k).active == v
  }

  lemma StepKeeps(s: Configs, op: Op)
    requires Inv(s) && (op.Register? ==> op.m.config.version != "")
    ensures Inv(Step(s, op))
    ensures forall v :: v in s.items ==> v in Step(s, op).items && Step(s, op).items[v].config == s.items[v].config
    ensures forall v :: v in Step(s, op).items && v !in s.items ==> Step(s, op).items[v].state == DRAFT
    ensures forall v :: v in s.items ==> ((Step(s, op).items[v].state == DRAFT) <==>
              (s.items[v].state == DRAFT && v != Step(s, op).active))
  {
  }

  /**
   In every run exactly one configuration is ACTIVE, contents never change, and
   a configuration has left DRAFT exactly when it was active at some point.
   */
  lemma {:induction false} LifecycleKeeps(c: Config, ops: seq<Op>, n: nat)
    requires c.version != "" && n <= |ops|
    requires forall i :: 0 <= i < |ops| && ops[i].Register? ==> ops[i].m.config.version != ""
    ensures Inv(At(Initial(c), ops, n))
    ensures forall v :: v in At(Initial(c), ops, n).items ==>
              (At(Initial(c), ops, n).items[v].state != DRAFT <==> WasActive(Initial(c), ops, n, v))
    ensures forall v :: WasActive(Initial(c), ops, n, v) ==> v in At(Initial(c), ops, n).items
  {
    var s0 := Initial(c);
    if n == 0 {
      assert forall v :: WasActive(s0, ops, 0, v) <==> v == c.version by {
        assert At(s0, ops, 0).active == c.version;
      }
    } else {
      LifecycleKeeps(c, ops, n - 1);
      var before, after := At(s0, ops, n - 1), At(s0, ops, n);
      StepKeeps(before, ops[n - 1]);
      forall v ensures WasActive(s0, ops, n, v) <==> WasActive(s0, ops, n - 1, v) || v == after.active {
        if WasActive(s0, ops, n, v) {
          var k :| 0 <= k <= n && At(s0, ops, k).active == v;
        }
      }
    }
  }

  /** The call by which the version last stopped being the active one. */
  function LeftBy(s: Configs, ops: seq<Op>, n: nat, v: string): Option<Op>
    requires n <= |ops|
  {
    if n == 0 then None
    else if At(s, ops, n - 1).active == v && At(s, ops, n).active != v then Some(ops[n - 1])
    else LeftBy(s, ops, n - 1, v)
  }

  /** The state of a version, given which is active and what made it stop being so. */
  predicate StateTells(s: Configs, v: string, left: Option<Op>) {
    v in s.items ==>
      match s.items[v].state
      case ACTIVE => v == s.active
      case DRAFT => v != s.active && left.None?
      case DEPRECATED => v != s.active && left.Some? && left.value.Activate?
      case ROLLED_BACK => v != s.active && left.Some? && left.value.Rollback?
  }

  /** What is not registered was never active. */
  predicate Tells(s: Configs, v: string, left: Option<Op>) {
    StateTells(s, v, left) && (v !in s.items ==> left.None?)
  }

  lemma StepTells(s: Configs, op: Op, v: string, left: Option<Op>)
    requires Inv(s) && (op.Register? ==> op.m.config.version != "") && Tells(s, v, left)
    ensures Tells(Step(s, op), v, if s.active == v && Step(s, op).active != v then Some(op) else left)
  {
  }

  /**
   In every run the state of a version tells whether it is active, was never
   active, gave way to an activation, or was rolled back.
   */
  lemma {:induction false} StatesTell(c: Config, ops: seq<Op>, n: nat, v: string)
    requires c.version != "" && n <= |ops|
    requires forall i :: 0 <= i < |ops| && ops[i].Register? ==> ops[i].m.config.version != ""
    ensures Tells(At(Initial(c), ops, n), v, LeftBy(Initial(c), ops, n, v))
  {
    if n > 0 {
      StatesTell(c, ops, n - 1, v);
      LifecycleKeeps(c, ops, n - 1);
      StepTells(At(Initial(c), ops, n - 1), ops[n - 1], v, LeftBy(Initial(c), ops, n - 1, v));
    }
  }

  /** Which calls are accepted, in terms of the calls before, and what becomes active. */
  predicate Accepted(s: Configs, op: Op, left: Option<Op>) {
    match op
    case Register(m) => m.config.version !in s.items && m.state == DRAFT
    case Activate(v) => v in s.items && v != s.active && (left.Some? ==> left.value.Rollback?)
    case Rollback(v) => v in s.items && v != s.active
  }

  function Target(op: Op): string {
    match op
    case Register(m) => m.config.version
    case Activate(v) => v
    case Rollback(v) => v
  }

  /**
   A draft is registered exactly under a new version; a version is activated
   exactly if it never was active or was last rolled back; and rolled back to
   exactly if it is registered and not active. Other calls change nothing.
   */
  lemma CallsExactly(c: Config, ops: seq<Op>, n: nat)
    requires c.version != "" && n < |ops|
    requires forall i :: 0 <= i < |ops| && ops[i].Register? ==> ops[i].m.config.version != ""
    ensures var s, s', op := At(Initial(c), ops, n), At(Initial(c), ops, n + 1), ops[n];
            if Accepted(s, op, LeftBy(Initial(c), ops, n, Target(op)))
            then && s'.items.Keys == s.items.Keys + {Target(op)}
                 && s'.active == if op.Register? then s.active else Target(op)
            else s' == s
  {
    LifecycleKeeps(c, ops, n);
    StatesTell(c, ops, n, Target(ops[n]));
  }

  /** Everything in `a` is still in `b` with the same content. */
  ghost predicate Extends(a: Configs, b: Configs) {
    forall v :: v in a.items ==> v in b.items && b.items[v].config == a.items[v].config
  }

  lemma StepExtends(a: Configs, s: Configs, op: Op)
    requires Extends(a, s) && Inv(s) && (op.Register? ==> op.m.config.version != "")
    ensures Extends(a, Step(s, op))
  {
    StepKeeps(s, op);
  }

  /** A configuration, once registered, keeps its content for the rest of the run. */
  lemma {:induction false} ContentsFixed(c: Config, ops: seq<Op>, k: nat, n: nat)
    requires c.version != "" && k <= n <= |ops|
    requires forall i :: 0 <= i < |ops| && ops[i].Register? ==> ops[i].m.config.version != ""
    ensures Extends(At(Initial(c), ops, k), At(Initial(c), ops, n))
  {
    if k < n {
      ContentsFixed(c, ops, k, n - 1);
      LifecycleKeeps(c, ops, n - 1);
      StepExtends(At(Initial(c), ops, k), At(Initial(c), ops, n - 1), ops[n - 1]);
    }
  }

  /**
   Rollback is documented for earlier versions. In every run, an accepted target
   was active before exactly when it is no longer a draft.
   */
  lemma RollbackTargetExactly(c: Config, ops: seq<Op>, n: nat, v: string)
    requires c.version != "" && n <= |ops|
    requires forall i :: 0 <= i < |ops| && ops[i].Register? ==> ops[i].m.config.version != ""
    requires RolledBack(At(Initial(c), ops, n), v).Some?
    ensures v in At(Initial(c), ops, n).items
    ensures WasActive(Initial(c), ops, n, v) <==> At(Initial(c), ops, n).items[v].state != DRAFT
  {
    LifecycleKeeps(c, ops, n);
  }

  /** Rollback accepts a version that was never active, although it is documented for earlier ones only. */
  lemma RollbackAcceptsDraft(c: Config, d: Config)
    requires c.version == "1.0.0" && d.version == "2.0.0"
    ensures var s := Step(Initial(c), Register(Managed(d, DRAFT)));
            !WasActive(Initial(c), [Register(Managed(d, DRAFT))], 1, "2.0.0")
            && RolledBack(s, "2.0.0").Some? && RolledBack(s, "2.0.0").value.active == "2.0.0"
  {
    var ops := [Register(Managed(d, DRAFT))];
    assert At(Initial(c), ops, 0).active == "1.0.0" && At(Initial(c), ops, 1).active == "1.0.0";
  }
}
