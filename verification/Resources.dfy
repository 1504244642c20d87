/** The operator resource table and tenant-scoped name resolution (`crates/fabric-backends/src/resources.rs`). */
module Resources {
  import opened Wrappers

  datatype Kind = Db | Mongo | Mail | Redis | Amq | Auth

  /** The order in which a session's names are resolved; the first failure is the one reported. */
  const ORDER: seq<Kind> := [Db, Mongo, Mail, Redis, Amq, Auth]

  /** A driver binding: its kind tag and its connection settings. */
  datatype Binding = Binding(kind: Kind, settings: string, statementTimeoutMs: nat, maxSends: nat)

  /** A binding and the tenant that may use it; no tenant means the single-tenant path only. */
  datatype Entry = Entry(tenant: Option<string>, binding: Binding)

  type Table = map<string, Entry>

  /** The session-open message: a resource name per requested kind, a tenant, a token, a budget. */
  datatype WireInit = WireInit(names: map<Kind, string>, tenant: Option<string>, token: Option<string>, timeoutMs: nat)

  datatype ResolveError = NotFound(name: string) | KindMismatch(name: string, kind: Kind)

  type Resolved = map<Kind, Binding>

  /** One optional name. Another tenant's resource is indistinguishable from a missing one. */
  function Pick(table: Table, tenant: Option<string>, name: Option<string>, kind: Kind)
    : Result<Option<Binding>, ResolveError>
  {
    if name.None? then Ok(None)
    else if name.value !in table then Err(NotFound(name.value))
    else if table[name.value].tenant != tenant then Err(NotFound(name.value))
    else if table[name.value].binding.kind != kind then Err(KindMismatch(name.value, kind))
    else Ok(Some(table[name.value].binding))
  }

  function NameOf(init: WireInit, kind: Kind): Option<string> {
    if kind in init.names then Some(init.names[kind]) else None
  }

  function ResolveFrom(table: Table, init: WireInit, kinds: seq<Kind>): Result<Resolved, ResolveError> {
    if kinds == [] then Ok(map[])
    else
      match Pick(table, init.tenant, NameOf(init, kinds[0]), kinds[0])
      case Err(e) => Err(e)
      case Ok(picked) =>
        match ResolveFrom(table, init, kinds[1..])
        case Err(e) => Err(e)
        case Ok(rest) => Ok(if picked.Some? then rest[kinds[0] := picked.value] else rest)
  }

  function Resolve(table: Table, init: WireInit): Result<Resolved, ResolveError> {
    ResolveFrom(table, init, ORDER)
  }

  /** The part of the table a tenant may see. */
  ghost function Restrict(table: Table, tenant: Option<string>): Table {
    map name | name in table && table[name].tenant == tenant :: table[name]
  }

  /** A name of this kind is provisioned for the session's tenant with a matching binding. */
  predicate Granted(table: Table, init: WireInit, kind: Kind) {
    kind in init.names ==>
      && init.names[kind] in table
      && table[init.names[kind]].tenant == init.tenant
      && table[init.names[kind]].binding.kind == kind
  }

  lemma {:induction false} ResolveFromExactly(table: Table, init: WireInit, kinds: seq<Kind>)
    requires forall i, j :: 0 <= i < j < |kinds| ==> kinds[i] != kinds[j]
    ensures ResolveFrom(table, init, kinds).Ok? <==> forall i :: 0 <= i < |kinds| ==> Granted(table, init, kinds[i])
    ensures ResolveFrom(table, init, kinds).Ok? ==>
              var r := ResolveFrom(table, init, kinds).value;
              && (forall k :: k in r <==> k in kinds && k in init.names)
              && (forall k :: k in r ==> r[k] == table[init.names[k]].binding)
    ensures ResolveFrom(table, init, kinds).Err? ==>
              exists i :: && 0 <= i < |kinds| && !Granted(table, init, kinds[i])
                          && (forall j :: 0 <= j < i ==> Granted(table, init, kinds[j]))
                          && Pick(table, init.tenant, NameOf(init, kinds[i]), kinds[i])
                             == Err(ResolveFrom(table, init, kinds).error)
  {
    if kinds != [] {
      var rest := kinds[1..];
      ResolveFromExactly(table, init, rest);
      if Granted(table, init, kinds[0]) {
        assert forall i :: 0 <= i < |rest| ==> rest[i] == kinds[i + 1];
        if ResolveFrom(table, init, rest).Err? {
          var i :| && 0 <= i < |rest| && !Granted(table, init, rest[i])
                   && (forall j :: 0 <= j < i ==> Granted(table, init, rest[j]))
                   && Pick(table, init.tenant, NameOf(init, rest[i]), rest[i])
                      == Err(ResolveFrom(table, init, rest).error);
          assert kinds[i + 1] == rest[i];
          assert forall j :: 0 <= j < i + 1 ==> Granted(table, init, kinds[j]) by {
            forall j | 0 <= j < i + 1 ensures Granted(table, init, kinds[j]) {
              if j > 0 { assert kinds[j] == rest[j - 1]; }
            }
          }
        }
      } else {
        assert !Granted(table, init, kinds[0]);
      }
    }
  }

  /**
   Resolution succeeds iff every named resource exists for the session's own tenant with the asked
   kind, and then yields exactly those bindings; otherwise it reports the first failing kind.
   */
  lemma ResolveExactly(table: Table, init: WireInit)
    ensures Resolve(table, init).Ok? <==> forall k :: Granted(table, init, k)
    ensures Resolve(table, init).Ok? ==>
              var r := Resolve(table, init).value;
              && r.Keys == init.names.Keys
              && (forall k :: k in r ==> && init.names[k] in table && r[k] == table[init.names[k]].binding
                                         && table[init.names[k]].tenant == init.tenant && r[k].kind == k)
  {
    ResolveFromExactly(table, init, ORDER);
    assert forall k :: k in ORDER by { forall k: Kind ensures k in ORDER { AllKinds(k); } }
    forall k: Kind ensures Resolve(table, init).Ok? ==> Granted(table, init, k) {
      assert k in ORDER;
      var i :| 0 <= i < |ORDER| && ORDER[i] == k;
      assert Resolve(table, init).Ok? ==> Granted(table, init, ORDER[i]);
    }
  }

  /** The name asked for is not one this tenant may see: missing, or another tenant's. */
  ghost predicate Unseen(table: Table, init: WireInit, k: Kind) {
    k in init.names && (init.names[k] !in table || table[init.names[k]].tenant != init.tenant)
  }

  /** Kind `ORDER[i]` is the first whose name is not granted. */
  ghost predicate FirstFailing(table: Table, init: WireInit, i: nat) {
    i < |ORDER| && !Granted(table, init, ORDER[i]) && forall j :: 0 <= j < i ==> Granted(table, init, ORDER[j])
  }

  /**
   A failed resolution reports the first kind, in order, that fails: its name as not found when the
   tenant may not see it, and as a mismatch only when it is the tenant's own but of another kind.
   */
  lemma ResolveErrorExactly(table: Table, init: WireInit)
    requires Resolve(table, init).Err?
    ensures exists i: nat :: FirstFailing(table, init, i) && ORDER[i] in init.names
              && Resolve(table, init).error
                 == if Unseen(table, init, ORDER[i]) then NotFound(init.names[ORDER[i]])
                    else KindMismatch(init.names[ORDER[i]], ORDER[i])
  {
    ResolveFromExactly(table, init, ORDER);
    var i :| && 0 <= i < |ORDER| && !Granted(table, init, ORDER[i])
             && (forall j :: 0 <= j < i ==> Granted(table, init, ORDER[j]))
             && Pick(table, init.tenant, NameOf(init, ORDER[i]), ORDER[i]) == Err(ResolveFrom(table, init, ORDER).error);
    assert FirstFailing(table, init, i);
  }

  lemma AllKinds(k: Kind)
    ensures k in ORDER
  {
    match k
    case Db => assert ORDER[0] == Db;
    case Mongo => assert ORDER[1] == Mongo;
    case Mail => assert ORDER[2] == Mail;
    case Redis => assert ORDER[3] == Redis;
    case Amq => assert ORDER[4] == Amq;
    case Auth => assert ORDER[5] == Auth;
  }

  /** Resolution sees nothing outside the session tenant's own part of the table, errors included. */
  lemma {:induction false} ResolveFromScoped(table: Table, init: WireInit, kinds: seq<Kind>)
    ensures ResolveFrom(table, init, kinds) == ResolveFrom(Restrict(table, init.tenant), init, kinds)
  {
    if kinds != [] { ResolveFromScoped(table, init, kinds[1..]); }
  }

  lemma ResolveScoped(one: Table, other: Table, init: WireInit)
    requires Restrict(one, init.tenant) == Restrict(other, init.tenant)
    ensures Resolve(one, init) == Resolve(other, init)
  {
    ResolveFromScoped(one, init, ORDER);
    ResolveFromScoped(other, init, ORDER);
  }

  /** The operator's ceiling on the db statement timeout; 0 means no ceiling, and 0 ms is unlimited. */
  function ClampStatementTimeout(r: Resolved, ceiling: nat): (c: Resolved)
    ensures c.Keys == r.Keys
    ensures forall k :: k in r && k != Db ==> c[k] == r[k]
    ensures Db in r ==> c[Db] == r[Db].(statementTimeoutMs := c[Db].statementTimeoutMs)
    ensures Db in r && ceiling > 0 ==> 0 < c[Db].statementTimeoutMs <= ceiling
    ensures Db in r && (ceiling == 0 || 0 < r[Db].statementTimeoutMs <= ceiling) ==> c == r
    ensures Db in r && ceiling > 0 && (r[Db].statementTimeoutMs == 0 || ceiling < r[Db].statementTimeoutMs) ==>
              c[Db].statementTimeoutMs == ceiling
  {
    if ceiling == 0 || Db !in r then r
    else
      var asked := r[Db].statementTimeoutMs;
      r[Db := r[Db].(statementTimeoutMs := if asked == 0 || asked > ceiling then ceiling else asked)]
  }
}
