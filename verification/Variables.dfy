/**
  The scoped variable store (cmd/api-server/variables/handler.go and cmd/api-server/models/variables.go): variables of
  an organization, of an environment of an application, and of a component in an environment.

  Requests are handled one after the other, and a lookup fails only when nothing matches.
 */
module Variables {
  import opened Wrappers
  import opened SecretValues
  import opened StableSort

  datatype Kind = OrganizationKind | EnvironmentKind | ComponentKind

  /**
    A variable, and the document it is stored as; timestamps are not modelled. Object ids are numbers, 0 the all-zero
    one. The `omitempty` tags (models/variables.go:34-41) leave an all-zero id out of a document, and a filter by such
    an id finds no document without it: in a document `org` is 0, and `app` and `comp` are None, when left out.
   */
  datatype Variable = Variable(id: nat, name: string, value: Bytes, kind: Kind, org: nat,
                               app: Option<nat>, env: Option<string>, comp: Option<nat>, encrypted: bool)

  /** The JSON body of a create request. It may carry identifiers of its own. */
  datatype Body = Body(id: Option<nat>, name: string, value: Bytes, app: Option<nat>, env: Option<string>,
                       comp: Option<nat>, encrypted: bool)

  /** An object id in the URL: left out, not parseable, or given. */
  datatype Param = Absent | Malformed | Given(id: nat)

  /** `body` is None when it does not bind; `env` is "" when the URL has no environment. */
  datatype Request = Request(body: Option<Body>, org: Param, app: Param, env: string, comp: Param)

  // ---------------------------------------------------------------------------------------------------------------
  // Reading a request (handler.go:121-173)
  // ---------------------------------------------------------------------------------------------------------------

  predicate IsWordStart(c: char) { 'a' <= c <= 'z' || 'A' <= c <= 'Z' || c == '_' }
  predicate IsWord(c: char) { IsWordStart(c) || '0' <= c <= '9' }

  /** ValidateName: ^[a-zA-Z_][a-zA-Z0-9_]*$ */
  predicate ValidName(name: string) {
    name != "" && IsWordStart(name[0]) && forall i :: 0 <= i < |name| ==> IsWord(name[i])
  }

  /** The most specific scope named by the URL. */
  function KindOf(r: Request): Kind {
    if !r.comp.Absent? then ComponentKind else if r.env != "" then EnvironmentKind else OrganizationKind
  }

  function Resolve(p: Param, fromBody: Option<nat>): Option<nat> {
    if p.Given? then Some(p.id) else fromBody
  }

  /** The variable a request asks for, with its plain value; None when the request is invalid. */
  function Requested(r: Request, id: nat): Option<Variable> {
    if r.body.None? || r.body.value.name == "" || r.body.value.value == [] || !ValidName(r.body.value.name)
       || !r.org.Given? || r.comp.Malformed? || r.app.Malformed? then None
    else
      var b := r.body.value;
      Some(Variable(id, b.name, b.value, KindOf(r), r.org.id, Resolve(r.app, b.app),
                    if r.env != "" then Some(r.env) else b.env, Resolve(r.comp, b.comp), b.encrypted))
  }

  // ---------------------------------------------------------------------------------------------------------------
  // Lookups and uniqueness checks (handler.go:234-268, models/variables.go:145-172)
  // ---------------------------------------------------------------------------------------------------------------

  /** The identifiers its scope needs (lines 236-244). */
  predicate Complete(v: Variable) {
    && (!v.kind.OrganizationKind? ==> v.app.Some? && v.env.Some?)
    && (v.kind.ComponentKind? ==> v.comp.Some?)
  }

  /** An id as it is stored. */
  function Kept(id: Option<nat>): Option<nat> { if id == Some(0) then None else id }

  /** A variable as it is stored. */
  function Persist(v: Variable): Variable { v.(app := Kept(v.app), comp := Kept(v.comp)) }

  /** An id of the variable's scope is all zero. */
  predicate NilIds(v: Variable) {
    match v.kind
    case OrganizationKind => v.org == 0
    case EnvironmentKind => v.app == Some(0)
    case ComponentKind => v.app == Some(0) || v.comp == Some(0)
  }

  /** An id of the scope is missing from the document. */
  predicate NilKey(d: Variable) {
    match d.kind
    case OrganizationKind => d.org == 0
    case EnvironmentKind => d.app.None?
    case ComponentKind => d.app.None? || d.comp.None?
  }

  /** The document `d` is found by the lookup made for `v`. The organization lookup does not filter by type. */
  predicate Hits(d: Variable, v: Variable) {
    match v.kind
    case OrganizationKind => v.org != 0 && d.org == v.org && d.name == v.name
    case EnvironmentKind => d.app == v.app && d.kind == v.kind && d.name == v.name && d.env == v.env
    case ComponentKind =>
      d.app == v.app && d.kind == v.kind && d.name == v.name && d.env == v.env && d.comp == v.comp
  }

  predicate Taken(docs: seq<Variable>, v: Variable) {
    exists i :: 0 <= i < |docs| && Hits(docs[i], v)
  }

  /** checkVariable. */
  predicate Admissible(docs: seq<Variable>, v: Variable) {
    Complete(v) && !Taken(docs, v)
  }

  /** Two variables have the same scope key: org+name, app+env+name, or app+env+component+name. */
  predicate SameKey(a: Variable, b: Variable) {
    && a.kind == b.kind && a.name == b.name
    && match a.kind
       case OrganizationKind => a.org == b.org
       case EnvironmentKind => a.app == b.app && a.env == b.env
       case ComponentKind => a.app == b.app && a.env == b.env && a.comp == b.comp
  }

  predicate HasId(docs: seq<Variable>, id: nat) {
    exists i :: 0 <= i < |docs| && docs[i].id == id
  }

  // ---------------------------------------------------------------------------------------------------------------
  // Histories
  // ---------------------------------------------------------------------------------------------------------------

  /**
    A create request with the nonce drawn for it and the id the database would generate, or a delete request and
    whether the caller owns the organization.
   */
  datatype Op = Create(request: Request, nonce: Bytes, generated: nat) | Delete(allowed: bool, id: nat)

  /** The document id: the body's own, or a generated one; an all-zero id is left out and so generated too. */
  function IdFor(op: Op): nat
    requires op.Create?
  {
    var own := if op.request.body.Some? then Kept(op.request.body.value.id) else None;
    if own.Some? then own.value else op.generated
  }

  /** The variable this operation inserts into `docs`, in plain; an id in use is refused by the database. */
  function Inserted(docs: seq<Variable>, op: Op): Option<Variable> {
    if op.Delete? then None
    else
      var v := Requested(op.request, IdFor(op));
      if v.None? || !Admissible(docs, v.value) || HasId(docs, IdFor(op)) then None else v
  }

  /** DeleteOne by id: the first document with that id, if any. */
  function Without(docs: seq<Variable>, id: nat): seq<Variable> {
    if docs == [] then []
    else if docs[0].id == id then docs[1..]
    else [docs[0]] + Without(docs[1..], id)
  }

  /** The same history seen by the clients: every variable keeps the value it was created with. */
  function PlainStep(docs: seq<Variable>, op: Op): seq<Variable> {
    if op.Delete? then (if op.allowed then Without(docs, op.id) else docs)
    else
      var v := Inserted(docs, op);
      if v.Some? then docs + [Persist(v.value)] else docs
  }

  function PlainRun(ops: seq<Op>): seq<Variable> {
    if ops == [] then [] else PlainStep(PlainRun(ops[..|ops| - 1]), ops[|ops| - 1])
  }

  /** The stored form of a variable; None where encryption panics. */
  function Protect(c: Cipher, key: Bytes, nonce: Bytes, v: Variable): Option<Variable> {
    if !v.encrypted then Some(v)
    else
      var e := EncryptValue(c, key, nonce, v.value);
      if e.None? then None else Some(v.(value := e.value))
  }

  function Step(c: Cipher, key: Bytes, docs: seq<Variable>, op: Op): seq<Variable> {
    if op.Delete? then (if op.allowed then Without(docs, op.id) else docs)
    else
      var v := Inserted(docs, op);
      if v.None? then docs
      else
        var p := Protect(c, key, op.nonce, Persist(v.value));
        if p.None? then docs else docs + [p.value]
  }

  function Run(c: Cipher, key: Bytes, ops: seq<Op>): seq<Variable> {
    if ops == [] then [] else Step(c, key, Run(c, key, ops[..|ops| - 1]), ops[|ops| - 1])
  }

  // --- Uniqueness, on any history ---

  /** A document holds no all-zero id, and the ids of its scope unless they were all zero. */
  predicate StoredForm(d: Variable) {
    && d.app != Some(0) && d.comp != Some(0)
    && (!NilKey(d) ==> Complete(d))
  }

  ghost predicate Consistent(docs: seq<Variable>) {
    && (forall i :: 0 <= i < |docs| ==> StoredForm(docs[i]))
    && (forall i, j :: 0 <= i < j < |docs| ==> docs[i].id != docs[j].id)
    && (forall i, j :: 0 <= i < j < |docs| && SameKey(docs[i], docs[j]) ==> NilKey(docs[i]))
  }

  /** What deletion leaves: the other documents. */
  lemma {:induction false} WithoutMembers(docs: seq<Variable>, id: nat)
    requires forall i, j :: 0 <= i < j < |docs| ==> docs[i].id != docs[j].id
    ensures forall v :: v in Without(docs, id) <==> v in docs && v.id != id
  {
    if docs == [] {
    } else {
      var rest := docs[1..];
      assert docs == [docs[0]] + rest;
      forall v | v in rest ensures v.id != docs[0].id {
        var k :| 0 <= k < |rest| && rest[k] == v;
        assert docs[k + 1] == v;
      }
      WithoutMembers(rest, id);
    }
  }

  lemma {:induction false} WithoutSubset(docs: seq<Variable>, id: nat)
    ensures forall v :: v in Without(docs, id) ==> v in docs
  {
    if docs == [] {
    } else {
      WithoutSubset(docs[1..], id);
    }
  }

  lemma {:induction false} WithoutConsistent(docs: seq<Variable>, id: nat)
    requires Consistent(docs)
    ensures Consistent(Without(docs, id))
  {
    if docs == [] || docs[0].id == id {
    } else {
      var rest := Without(docs[1..], id);
      WithoutConsistent(docs[1..], id);
      WithoutSubset(docs[1..], id);
      forall j | 0 <= j < |rest|
        ensures (SameKey(docs[0], rest[j]) ==> NilKey(docs[0])) && docs[0].id != rest[j].id
      {
        assert rest[j] in docs[1..];
        var k :| 0 <= k < |docs[1..]| && docs[1..][k] == rest[j];
        assert docs[k + 1] == rest[j];
      }
    }
  }

  /** A document that is added keeps the collection consistent. */
  lemma AddingKeepsConsistent(docs: seq<Variable>, v: Variable, d: Variable)
    requires Consistent(docs) && Admissible(docs, v) && !HasId(docs, v.id)
    requires d == Persist(v).(value := d.value)
    ensures Consistent(docs + [d])
  {
    forall i | 0 <= i < |docs| ensures (SameKey(docs[i], d) ==> NilKey(docs[i])) && docs[i].id != d.id {
      assert !Hits(docs[i], v);
    }
  }

  lemma StepKeepsConsistent(c: Cipher, key: Bytes, docs: seq<Variable>, op: Op)
    requires Consistent(docs)
    ensures Consistent(Step(c, key, docs, op))
  {
    if op.Delete? {
      WithoutConsistent(docs, op.id);
    } else {
      var v := Inserted(docs, op);
      if v.Some? {
        var p := Protect(c, key, op.nonce, Persist(v.value));
        if p.Some? { AddingKeepsConsistent(docs, v.value, p.value); }
      }
    }
  }

  /**
    Scope uniqueness: after any history of creates and deletes no two stored variables of the same type share a scope
    key, and every environment or component variable has all the ids its scope needs, unless the ids were all zero.
   */
  lemma {:induction false} ScopeUniqueness(c: Cipher, key: Bytes, ops: seq<Op>)
    ensures Consistent(Run(c, key, ops))
  {
    if ops == [] {
    } else {
      ScopeUniqueness(c, key, ops[..|ops| - 1]);
      StepKeepsConsistent(c, key, Run(c, key, ops[..|ops| - 1]), ops[|ops| - 1]);
    }
  }

  /** Uniqueness without exception. */
  ghost predicate Strict(docs: seq<Variable>) {
    && (forall i :: 0 <= i < |docs| ==> Complete(docs[i]))
    && forall i, j :: 0 <= i < j < |docs| ==> !SameKey(docs[i], docs[j])
  }

  /** The request names no all-zero id for its scope. */
  predicate NamesNoNilId(op: Op) {
    op.Create? ==>
      var v := Requested(op.request, IdFor(op));
      v.Some? ==> !NilIds(v.value)
  }

  ghost predicate AllKeyed(docs: seq<Variable>) { forall d :: d in docs ==> !NilKey(d) }

  lemma StepKeepsKeyed(c: Cipher, key: Bytes, docs: seq<Variable>, op: Op)
    requires AllKeyed(docs) && NamesNoNilId(op)
    ensures AllKeyed(Step(c, key, docs, op))
  {
    if op.Delete? { WithoutSubset(docs, op.id); }
  }

  lemma {:induction false} AllKeyedRun(c: Cipher, key: Bytes, ops: seq<Op>)
    requires forall op :: op in ops ==> NamesNoNilId(op)
    ensures AllKeyed(Run(c, key, ops))
  {
    if ops == [] {
    } else {
      var init, op := ops[..|ops| - 1], ops[|ops| - 1];
      assert op in ops && forall o :: o in init ==> o in ops;
      AllKeyedRun(c, key, init);
      StepKeepsKeyed(c, key, Run(c, key, init), op);
    }
  }

  /** When no request names an all-zero id, uniqueness holds without exception. */
  lemma StrictUniqueness(c: Cipher, key: Bytes, ops: seq<Op>)
    requires forall op :: op in ops ==> NamesNoNilId(op)
    ensures Strict(Run(c, key, ops))
  {
    ScopeUniqueness(c, key, ops);
    AllKeyedRun(c, key, ops);
    var docs := Run(c, key, ops);
    forall i | 0 <= i < |docs| ensures Complete(docs[i]) && !NilKey(docs[i]) {
      assert docs[i] in docs;
      assert StoredForm(docs[i]);
    }
  }

  /**
    Exactly when the next document keeps uniqueness without exception: its ids are not all zero, or it is an
    organization's and the first one of its name without an organization id.
   */
  lemma StrictIff(docs: seq<Variable>, v: Variable)
    requires Consistent(docs) && Strict(docs) && Admissible(docs, v)
    ensures Strict(docs + [Persist(v)]) <==>
            !NilIds(v) || (v.kind.OrganizationKind? && forall i :: 0 <= i < |docs| ==> !SameKey(docs[i], v))
  {
    var after := docs + [Persist(v)];
    assert forall i :: 0 <= i < |docs| ==> after[i] == docs[i];
    assert after[|docs|] == Persist(v);
    if !NilIds(v) {
      forall i | 0 <= i < |docs| ensures !SameKey(docs[i], Persist(v)) {
        assert !Hits(docs[i], v);
      }
    } else if !v.kind.OrganizationKind? {
      assert !Complete(after[|docs|]);
    } else {
      assert forall i :: 0 <= i < |docs| ==> (SameKey(docs[i], Persist(v)) <==> SameKey(docs[i], v));
    }
  }

  /** Whatever is stored, a complete variable with an all-zero id in its scope is admitted: it is never found again. */
  lemma NilIdsAreAdmitted(docs: seq<Variable>, v: Variable)
    requires Consistent(docs) && Complete(v) && NilIds(v)
    ensures Admissible(docs, v)
  {
    forall i | 0 <= i < |docs| ensures !Hits(docs[i], v) {
      assert StoredForm(docs[i]);
    }
  }

  /**
    Exactly when a well-formed, complete request is admitted. Environment and component variables are refused only
    for a variable with the same key. An organization variable is refused for any variable of the organization with
    that name, whatever its type: more than uniqueness needs. An all-zero organization id is never found.
   */
  lemma AdmittedIff(docs: seq<Variable>, v: Variable)
    requires Complete(v)
    ensures !v.kind.OrganizationKind? ==>
              (Admissible(docs, v) <==> forall i :: 0 <= i < |docs| ==> !SameKey(docs[i], v))
    ensures v.kind.OrganizationKind? ==>
              (Admissible(docs, v) <==>
                 v.org == 0 || forall i :: 0 <= i < |docs| ==> !(docs[i].org == v.org && docs[i].name == v.name))
  {
    if !v.kind.OrganizationKind? {
      assert forall i :: 0 <= i < |docs| ==> (Hits(docs[i], v) <==> SameKey(docs[i], v));
    }
  }

  // ---------------------------------------------------------------------------------------------------------------
  // Listing (handler.go:31-119, models/variables.go:93-143)
  // ---------------------------------------------------------------------------------------------------------------

  datatype Scope =
    | OfOrganization(org: nat)
    | OfEnvironment(org: nat, app: nat, env: string)
    | OfComponent(org: nat, app: nat, env: string, comp: nat)

  /** The document satisfies the filter of the scope's listing. */
  predicate InScope(v: Variable, s: Scope) {
    match s
    case OfOrganization(org) => v.kind.OrganizationKind? && v.org == org && org != 0
    case OfEnvironment(org, app, env) =>
      v.kind.EnvironmentKind? && v.org == org && org != 0 && v.app == Some(app) && v.env == Some(env)
    case OfComponent(org, app, env, comp) =>
      && v.kind.ComponentKind? && v.org == org && org != 0
      && v.app == Some(app) && v.env == Some(env) && v.comp == Some(comp)
  }

  /** The variable was created for the scope. */
  predicate Belongs(v: Variable, s: Scope) {
    match s
    case OfOrganization(org) => v.kind.OrganizationKind? && v.org == org
    case OfEnvironment(org, app, env) =>
      v.kind.EnvironmentKind? && v.org == org && v.app == Some(app) && v.env == Some(env)
    case OfComponent(org, app, env, comp) =>
      && v.kind.ComponentKind? && v.org == org
      && v.app == Some(app) && v.env == Some(env) && v.comp == Some(comp)
  }

  predicate NilScope(s: Scope) {
    match s
    case OfOrganization(org) => org == 0
    case OfEnvironment(org, app, _) => org == 0 || app == 0
    case OfComponent(org, app, _, comp) => org == 0 || app == 0 || comp == 0
  }

  /** Exactly when a stored variable is listed in a scope: it was created for it, and no id of it is all zero. */
  lemma ListedIff(v: Variable, s: Scope)
    ensures InScope(Persist(v), s) <==> Belongs(v, s) && !NilScope(s)
  {}

  function Matching(docs: seq<Variable>, s: Scope): seq<Variable> {
    if docs == [] then []
    else (if InScope(docs[0], s) then [docs[0]] else []) + Matching(docs[1..], s)
  }

  /** The database's binary order of names. */
  predicate TextLe(a: string, b: string) {
    a == "" || (b != "" && (a[0] < b[0] || (a[0] == b[0] && TextLe(a[1..], b[1..]))))
  }

  predicate ByName(a: Variable, b: Variable) { TextLe(a.name, b.name) }

  /** Find with the scope's filter, sorted by name. */
  function Query(docs: seq<Variable>, s: Scope): seq<Variable> { Sorted(ByName, Matching(docs, s)) }

  /** A document with its value decrypted; None where decryption panics. */
  function Reveal(c: Cipher, key: Bytes, v: Variable): Option<Variable> {
    if !v.encrypted then Some(v)
    else
      var d := DecryptValue(c, key, v.value);
      if d.None? then None else Some(v.(value := d.value))
  }

  function RevealAll(c: Cipher, key: Bytes, docs: seq<Variable>): Option<seq<Variable>> {
    if docs == [] then Some([])
    else
      var init := RevealAll(c, key, docs[..|docs| - 1]);
      var last := Reveal(c, key, docs[|docs| - 1]);
      if init.None? || last.None? then None else Some(init.value + [last.value])
  }

  /** The three list handlers: query, then decrypt. */
  function Listing(c: Cipher, key: Bytes, docs: seq<Variable>, s: Scope): Option<seq<Variable>> {
    RevealAll(c, key, Query(docs, s))
  }

  // --- The order of names ---

  lemma {:induction false} TextLeTotal(a: string, b: string)
    ensures TextLe(a, b) || TextLe(b, a)
    ensures TextLe(a, b) && TextLe(b, a) ==> a == b
  {
    if a == "" || b == "" || a[0] != b[0] {
    } else {
      TextLeTotal(a[1..], b[1..]);
      assert a == [a[0]] + a[1..] && b == [b[0]] + b[1..];
    }
  }

  lemma {:induction false} TextLeTransitive(a: string, b: string, d: string)
    requires TextLe(a, b) && TextLe(b, d)
    ensures TextLe(a, d)
  {
    if a == "" || a[0] != d[0] {
    } else {
      TextLeTransitive(a[1..], b[1..], d[1..]);
    }
  }

  lemma ByNameOrders()
    ensures TotalPreorder(ByName)
    ensures forall a, b :: Same(ByName, a, b) ==> a.name == b.name
  {
    forall a: Variable, b: Variable
      ensures ByName(a, b) || ByName(b, a)
      ensures Same(ByName, a, b) ==> a.name == b.name
    {
      TextLeTotal(a.name, b.name);
    }
    forall a: Variable, b: Variable, d: Variable | ByName(a, b) && ByName(b, d) ensures ByName(a, d) {
      TextLeTransitive(a.name, b.name, d.name);
    }
  }

  // --- Stored documents against plain variables ---

  /** The plain variable a document stands for. */
  function Plain(c: Cipher, key: Bytes, v: Variable): Variable {
    var r := Reveal(c, key, v);
    if r.Some? then r.value else v
  }

  ghost predicate Readable(c: Cipher, key: Bytes, docs: seq<Variable>) {
    forall v :: v in docs ==> Reveal(c, key, v).Some?
  }

  function PlainOf(c: Cipher, key: Bytes): Variable -> Variable { v => Plain(c, key, v) }

  lemma {:induction false} RevealReadable(c: Cipher, key: Bytes, docs: seq<Variable>)
    requires Readable(c, key, docs)
    ensures RevealAll(c, key, docs) == Some(Map(PlainOf(c, key), docs))
  {
    if docs == [] {
      assert Map(PlainOf(c, key), docs) == [];
    } else {
      var init := docs[..|docs| - 1];
      RevealReadable(c, key, init);
      assert Map(PlainOf(c, key), docs) == Map(PlainOf(c, key), init) + [Plain(c, key, docs[|docs| - 1])];
    }
  }

  lemma MapCons(f: Variable -> Variable, d: Variable, docs: seq<Variable>)
    ensures Map(f, [d] + docs) == [f(d)] + Map(f, docs)
  {}

  lemma MatchingCons(d: Variable, docs: seq<Variable>, s: Scope)
    ensures Matching([d] + docs, s) == (if InScope(d, s) then [d] else []) + Matching(docs, s)
  {
    assert ([d] + docs)[1..] == docs;
  }

  lemma {:induction false} MatchingMap(c: Cipher, key: Bytes, docs: seq<Variable>, s: Scope)
    ensures Matching(Map(PlainOf(c, key), docs), s) == Map(PlainOf(c, key), Matching(docs, s))
  {
    var f := PlainOf(c, key);
    if docs == [] {
    } else {
      assert docs == [docs[0]] + docs[1..];
      MatchingMap(c, key, docs[1..], s);
      MapCons(f, docs[0], docs[1..]);
      MapCons(f, docs[0], Matching(docs[1..], s));
      MatchingCons(docs[0], docs[1..], s);
      MatchingCons(f(docs[0]), Map(f, docs[1..]), s);
    }
  }

  lemma {:induction false} WithoutMap(c: Cipher, key: Bytes, docs: seq<Variable>, id: nat)
    ensures Without(Map(PlainOf(c, key), docs), id) == Map(PlainOf(c, key), Without(docs, id))
  {
    var f := PlainOf(c, key);
    if docs == [] {
    } else {
      WithoutMap(c, key, docs[1..], id);
      assert Map(f, docs)[1..] == Map(f, docs[1..]);
      assert Map(f, [docs[0]] + Without(docs[1..], id)) == [f(docs[0])] + Map(f, Without(docs[1..], id));
    }
  }

  lemma {:induction false} MatchingMembers(docs: seq<Variable>, s: Scope)
    ensures forall v :: v in Matching(docs, s) <==> v in docs && InScope(v, s)
  {
    if docs == [] {
    } else {
      MatchingMembers(docs[1..], s);
      assert forall v :: v in docs <==> v == docs[0] || v in docs[1..];
    }
  }

  /** Whether a create is admitted does not depend on the values stored. */
  lemma InsertedPlain(c: Cipher, key: Bytes, docs: seq<Variable>, op: Op)
    ensures Inserted(Map(PlainOf(c, key), docs), op) == Inserted(docs, op)
  {
    var plain := Map(PlainOf(c, key), docs);
    assert |plain| == |docs|;
    if op.Create? {
      var v := Requested(op.request, IdFor(op));
      assert HasId(plain, IdFor(op)) <==> HasId(docs, IdFor(op)) by {
        forall i | 0 <= i < |docs| ensures plain[i].id == docs[i].id {}
      }
      if v.Some? {
        forall i | 0 <= i < |docs| ensures Hits(plain[i], v.value) <==> Hits(docs[i], v.value) {}
        assert Taken(plain, v.value) <==> Taken(docs, v.value);
      }
    }
  }

  /** The random nonces have the size the cipher asks for. */
  predicate GoodNonces(ops: seq<Op>) {
    forall i :: 0 <= i < |ops| && ops[i].Create? ==> |ops[i].nonce| == NONCE_SIZE
  }

  lemma StepPlain(c: Cipher, key: Bytes, docs: seq<Variable>, op: Op)
    requires Lawful(c) && GoodKey(key) && (op.Create? ==> |op.nonce| == NONCE_SIZE)
    requires Readable(c, key, docs)
    ensures Readable(c, key, Step(c, key, docs, op))
    ensures PlainStep(Map(PlainOf(c, key), docs), op) == Map(PlainOf(c, key), Step(c, key, docs, op))
  {
    var f := PlainOf(c, key);
    if op.Delete? {
      WithoutMap(c, key, docs, op.id);
      WithoutSubset(docs, op.id);
    } else {
      InsertedPlain(c, key, docs, op);
      var v := Inserted(docs, op);
      if v.Some? {
        SecretRoundTrip(c, key, op.nonce, v.value.value);
        var p := Protect(c, key, op.nonce, Persist(v.value)).value;
        assert f(p) == Persist(v.value);
        assert Map(f, docs + [p]) == Map(f, docs) + [f(p)];
      }
    }
  }

  /** After any history every stored value can be decrypted, and what the documents stand for is the plain history. */
  lemma {:induction false} StoredStandsForPlain(c: Cipher, key: Bytes, ops: seq<Op>)
    requires Lawful(c) && GoodKey(key) && GoodNonces(ops)
    ensures Readable(c, key, Run(c, key, ops))
    ensures PlainRun(ops) == Map(PlainOf(c, key), Run(c, key, ops))
  {
    if ops == [] {
      assert Map(PlainOf(c, key), []) == [];
    } else {
      StoredStandsForPlain(c, key, ops[..|ops| - 1]);
      StepPlain(c, key, Run(c, key, ops[..|ops| - 1]), ops[|ops| - 1]);
    }
  }

  lemma QueryMembers(docs: seq<Variable>, s: Scope)
    ensures forall v :: v in Query(docs, s) <==> v in docs && InScope(v, s)
    ensures multiset(Query(docs, s)) == multiset(Matching(docs, s))
  {
    var m := Matching(docs, s);
    ByNameOrders();
    SortedIsStable(ByName, m);
    StableSortingPermutes(ByName, m, Query(docs, s));
    MatchingMembers(docs, s);
    assert forall v :: v in Query(docs, s) <==> v in multiset(Query(docs, s));
    assert forall v :: v in m <==> v in multiset(m);
  }

  ghost predicate DistinctNames(docs: seq<Variable>) {
    forall i, j :: 0 <= i < j < |docs| ==> docs[i].name != docs[j].name
  }

  /** Within one scope names are pairwise different. */
  lemma {:induction false} MatchingDistinct(docs: seq<Variable>, s: Scope)
    requires Consistent(docs)
    ensures DistinctNames(Matching(docs, s))
  {
    if docs == [] {
    } else {
      MatchingDistinct(docs[1..], s);
      MatchingMembers(docs[1..], s);
      var rest := Matching(docs[1..], s);
      if InScope(docs[0], s) {
        forall j | 0 <= j < |rest| ensures docs[0].name != rest[j].name {
          assert rest[j] in docs[1..];
          var k :| 0 <= k < |docs[1..]| && docs[1..][k] == rest[j];
          assert InScope(docs[k + 1], s) && !NilKey(docs[0]) && !SameKey(docs[0], docs[k + 1]);
        }
        assert Matching(docs, s) == [docs[0]] + rest;
      } else {
        assert Matching(docs, s) == rest;
      }
    }
  }

  lemma PlainConsistent(c: Cipher, key: Bytes, docs: seq<Variable>)
    requires Consistent(docs)
    ensures Consistent(Map(PlainOf(c, key), docs))
  {
    var plain := Map(PlainOf(c, key), docs);
    forall i, j | 0 <= i < j < |plain|
      ensures plain[i].id != plain[j].id && (SameKey(plain[i], plain[j]) ==> NilKey(plain[i]))
    {
      assert SameKey(docs[i], docs[j]) ==> NilKey(docs[i]);
    }
    forall i | 0 <= i < |plain| ensures StoredForm(plain[i]) {
      assert StoredForm(docs[i]);
    }
  }

  lemma StrictNames(docs: seq<Variable>, s: Scope)
    requires Consistent(docs)
    ensures var r := Query(docs, s);
            forall i, j :: 0 <= i < j < |r| ==> TextLe(r[i].name, r[j].name) && r[i].name != r[j].name
  {
    var m, r := Matching(docs, s), Query(docs, s);
    ByNameOrders();
    MatchingDistinct(docs, s);
    forall i, j | 0 <= i < j < |m| ensures !Same(ByName, m[i], m[j]) {
      assert m[i].name != m[j].name;
    }
    StrictlySorted(ByName, m);
    forall i, j | 0 <= i < j < |r| ensures TextLe(r[i].name, r[j].name) && r[i].name != r[j].name {
      assert ByName(r[i], r[j]) && !Same(ByName, r[i], r[j]);
      TextLeTotal(r[i].name, r[i].name);
    }
  }

  /** A listing of readable documents shows the plain variables of the scope. */
  lemma ListingShows(c: Cipher, key: Bytes, docs: seq<Variable>, s: Scope)
    requires Readable(c, key, docs)
    ensures Listing(c, key, docs, s) == Some(Query(Map(PlainOf(c, key), docs), s))
  {
    QueryMembers(docs, s);
    RevealReadable(c, key, Query(docs, s));
    MatchingMap(c, key, docs, s);
    SortedMap(ByName, PlainOf(c, key), Matching(docs, s));
  }

  /**
    Listing round trip: after any history, listing a scope does not panic and returns exactly the variables of that
    scope that survive in the plain history, each with the value it was created with, strictly increasing in name.
   */
  lemma ListingRoundTrip(c: Cipher, key: Bytes, ops: seq<Op>, s: Scope)
    requires Lawful(c) && GoodKey(key) && GoodNonces(ops)
    ensures Listing(c, key, Run(c, key, ops), s) == Some(Query(PlainRun(ops), s))
    ensures forall v :: v in Query(PlainRun(ops), s) <==> v in PlainRun(ops) && InScope(v, s)
    ensures var r := Query(PlainRun(ops), s);
            forall i, j :: 0 <= i < j < |r| ==> TextLe(r[i].name, r[j].name) && r[i].name != r[j].name
  {
    StoredStandsForPlain(c, key, ops);
    ListingShows(c, key, Run(c, key, ops), s);
    ScopeUniqueness(c, key, ops);
    PlainConsistent(c, key, Run(c, key, ops));
    QueryMembers(PlainRun(ops), s);
    StrictNames(PlainRun(ops), s);
  }

  /** Operation `i` of the history stored `v`. */
  ghost predicate InsertedAt(ops: seq<Op>, i: nat, v: Variable)
    requires i < |ops|
  {
    var w := Inserted(PlainRun(ops[..i]), ops[i]);
    w.Some? && v == Persist(w.value)
  }

  ghost predicate DeletedAt(ops: seq<Op>, j: nat, id: nat)
    requires j < |ops|
  {
    ops[j].Delete? && ops[j].allowed && ops[j].id == id
  }

  lemma {:induction false} PlainRunConsistent(ops: seq<Op>)
    ensures Consistent(PlainRun(ops))
  {
    if ops == [] {
    } else {
      PlainRunConsistent(ops[..|ops| - 1]);
      var docs, op := PlainRun(ops[..|ops| - 1]), ops[|ops| - 1];
      if op.Delete? {
        WithoutConsistent(docs, op.id);
      } else {
        var v := Inserted(docs, op);
        if v.Some? { AddingKeepsConsistent(docs, v.value, Persist(v.value)); }
      }
    }
  }

  /** What an operation did does not depend on the operations after it. */
  lemma SameAtPrefix(ops: seq<Op>, init: seq<Op>, v: Variable)
    requires init <= ops
    ensures forall i: nat :: i < |init| ==> (InsertedAt(init, i, v) <==> InsertedAt(ops, i, v))
    ensures forall j: nat :: j < |init| ==> (DeletedAt(init, j, v.id) <==> DeletedAt(ops, j, v.id))
  {
    forall i: nat | i < |init| ensures InsertedAt(init, i, v) <==> InsertedAt(ops, i, v) {
      assert init[..i] == ops[..i];
    }
  }

  /** `v` was inserted by operation `i` and not deleted by a later one. */
  ghost predicate SurvivesFrom(ops: seq<Op>, i: nat, v: Variable) {
    i < |ops| && InsertedAt(ops, i, v) && forall j: nat :: i < j < |ops| ==> !DeletedAt(ops, j, v.id)
  }

  ghost predicate Survives(ops: seq<Op>, v: Variable) { exists i: nat :: SurvivesFrom(ops, i, v) }

  lemma SurvivesStep(ops: seq<Op>, v: Variable)
    requires ops != []
    ensures var init, n := ops[..|ops| - 1], |ops| - 1;
            Survives(ops, v) <==> InsertedAt(ops, n, v) || (Survives(init, v) && !DeletedAt(ops, n, v.id))
  {
    var init, n: nat := ops[..|ops| - 1], |ops| - 1;
    SameAtPrefix(ops, init, v);
    forall i: nat | i < n ensures SurvivesFrom(ops, i, v) <==> SurvivesFrom(init, i, v) && !DeletedAt(ops, n, v.id) {
      forall j: nat | i < j < n ensures DeletedAt(init, j, v.id) <==> DeletedAt(ops, j, v.id) {}
    }
    assert SurvivesFrom(ops, n, v) <==> InsertedAt(ops, n, v);
    if Survives(ops, v) {
      var i: nat :| SurvivesFrom(ops, i, v);
      if i < n { assert SurvivesFrom(init, i, v); }
    } else if Survives(init, v) {
      var i: nat :| SurvivesFrom(init, i, v);
      assert !SurvivesFrom(ops, i, v);
    }
  }

  /** The plain history holds exactly the variables that were inserted and not deleted afterwards. */
  lemma {:induction false} PlainRunHoldsSurvivors(ops: seq<Op>, v: Variable)
    ensures v in PlainRun(ops) <==> Survives(ops, v)
  {
    if ops == [] {
    } else {
      var init, op := ops[..|ops| - 1], ops[|ops| - 1];
      PlainRunHoldsSurvivors(init, v);
      PlainRunConsistent(init);
      SurvivesStep(ops, v);
      if op.Delete? { WithoutMembers(PlainRun(init), op.id); }
    }
  }

  // ---------------------------------------------------------------------------------------------------------------
  // The handlers
  // ---------------------------------------------------------------------------------------------------------------

  datatype Status =
    Created | InvalidRequest | DatabaseError | Panicked | Listed | NoContent | NotAllowed | OrganizationError

  // --- What a create request means, on its fields ---

  /** A letter or an underscore, and a digit, by character code. */
  predicate IsLetterCode(n: int) { 65 <= n <= 90 || 97 <= n <= 122 || n == 95 }
  predicate IsDigitCode(n: int) { 48 <= n <= 57 }

  /** The names that are valid: letters, underscores and digits, no digit first. */
  lemma ValidNameIff(name: string)
    ensures ValidName(name) <==>
            && name != "" && IsLetterCode(name[0] as int)
            && forall i :: 0 <= i < |name| ==> IsLetterCode(name[i] as int) || IsDigitCode(name[i] as int)
  {
    forall i | 0 <= i < |name|
      ensures IsWordStart(name[i]) <==> IsLetterCode(name[i] as int)
      ensures IsWord(name[i]) <==> IsLetterCode(name[i] as int) || IsDigitCode(name[i] as int)
    {}
  }

  /** The body does not bind, or the name or an id of the URL is not well-formed, or the organization is missing. */
  predicate IsMalformed(r: Request) {
    || r.body.None? || r.body.value.name == "" || r.body.value.value == [] || !ValidName(r.body.value.name)
    || !r.org.Given? || r.app.Malformed? || r.comp.Malformed?
  }

  /** The application and the environment: those of the URL, or else of the body. */
  function AppIn(r: Request): Option<nat>
    requires r.body.Some?
  {
    if r.app.Given? then Some(r.app.id) else r.body.value.app
  }

  function EnvIn(r: Request): Option<string>
    requires r.body.Some?
  {
    if r.env != "" then Some(r.env) else r.body.value.env
  }

  /** A variable of an environment or a component is asked for, without application or environment. */
  predicate LacksIds(r: Request)
    requires r.body.Some?
  {
    (r.comp.Given? || r.env != "") && (AppIn(r).None? || EnvIn(r).None?)
  }

  /** The lookup of a create request finds the document. */
  predicate Clashes(d: Variable, r: Request)
    requires r.body.Some? && r.org.Given?
  {
    && d.name == r.body.value.name
    && if r.comp.Given? then
         d.kind.ComponentKind? && d.app == AppIn(r) && d.env == EnvIn(r) && d.comp == Some(r.comp.id)
       else if r.env != "" then
         d.kind.EnvironmentKind? && d.app == AppIn(r) && d.env == Some(r.env)
       else
         d.org == r.org.id && r.org.id != 0
  }

  /** The id of the new document: the body's own, or the generated one. */
  function IdIn(r: Request, generated: nat): nat
    requires r.body.Some?
  {
    var own := r.body.value.id;
    if own.Some? && own.value != 0 then own.value else generated
  }

  /** The status with which a create request is answered. */
  predicate Answers(docs: seq<Variable>, key: Bytes, r: Request, generated: nat, status: Status) {
    if IsMalformed(r) || LacksIds(r) || (exists i :: 0 <= i < |docs| && Clashes(docs[i], r)) then status.InvalidRequest?
    else if r.body.value.encrypted && |key| !in {16, 24, 32} then status.Panicked?
    else if exists i :: 0 <= i < |docs| && docs[i].id == IdIn(r, generated) then status.DatabaseError?
    else status.Created?
  }

  /** The variable asked for, apart from its value: the kind is that of the most specific scope in the URL. */
  predicate Describes(v: Variable, r: Request, generated: nat)
    requires r.body.Some? && r.org.Given?
  {
    var b := r.body.value;
    && v.id == IdIn(r, generated) && v.name == b.name && v.encrypted == b.encrypted && v.org == r.org.id
    && (if !r.comp.Absent? then v.kind.ComponentKind?
        else if r.env != "" then v.kind.EnvironmentKind? else v.kind.OrganizationKind?)
    && v.app == AppIn(r) && v.env == EnvIn(r)
    && v.comp == if r.comp.Given? then Some(r.comp.id) else b.comp
  }

  /** The document left for it: all-zero ids are left out. */
  predicate IsDocumentOf(d: Variable, v: Variable) {
    && d == v.(app := d.app, comp := d.comp, value := d.value)
    && d.app == (if v.app == Some(0) then None else v.app)
    && d.comp == if v.comp == Some(0) then None else v.comp
  }

  /** Its value: a secret is stored as the hexadecimal text of the nonce and the sealed value, others as they are. */
  predicate HoldsValue(d: Variable, c: Cipher, key: Bytes, nonce: Bytes, value: Bytes) {
    if d.encrypted then IsHexOf(d.value, nonce + c.seal(key, nonce, value)) else d.value == value
  }

  lemma AdmissibleIff(docs: seq<Variable>, v: Variable, r: Request, generated: nat)
    requires !IsMalformed(r) && Describes(v, r, generated)
    ensures Admissible(docs, v) <==> !LacksIds(r) && !exists i :: 0 <= i < |docs| && Clashes(docs[i], r)
  {
    if !LacksIds(r) {
      forall i | 0 <= i < |docs| ensures Hits(docs[i], v) <==> Clashes(docs[i], r) {}
    }
  }

  /** One more document revealed. */
  lemma RevealNext(c: Cipher, key: Bytes, docs: seq<Variable>, i: nat, shown: seq<Variable>)
    requires i < |docs| && RevealAll(c, key, docs[..i]) == Some(shown)
    ensures var d := Reveal(c, key, docs[i]);
            RevealAll(c, key, docs[..i + 1]) == if d.None? then None else Some(shown + [d.value])
  {
    assert docs[..i + 1][..i] == docs[..i];
  }

  lemma {:induction false} RevealPrefix(c: Cipher, key: Bytes, docs: seq<Variable>, n: nat)
    requires n <= |docs| && RevealAll(c, key, docs[..n]).None?
    ensures RevealAll(c, key, docs).None?
  {
    if n < |docs| {
      assert docs[..|docs| - 1][..n] == docs[..n];
      RevealPrefix(c, key, docs[..|docs| - 1], n);
    } else {
      assert docs[..n] == docs;
    }
  }

  class Handler {
    const cipher: Cipher
    const key: Bytes
    var documents: seq<Variable>

    constructor (cipher: Cipher, key: Bytes)
      ensures this.cipher == cipher && this.key == key && documents == []
    {
      this.cipher := cipher;
      this.key := key;
      documents := [];
    }

    /** The lookups of checkVariable: a FindOne over the collection. */
    method FindOne(v: Variable) returns (found: bool)
      ensures found <==> Taken(documents, v)
    {
      var i := 0;
      while i < |documents|
        invariant 0 <= i <= |documents|
        invariant forall j :: 0 <= j < i ==> !Hits(documents[j], v)
      {
        if Hits(documents[i], v) { return true; }
        i := i + 1;
      }
      return false;
    }

    /** checkVariable, handler.go:234-268. */
    method CheckVariable(v: Variable) returns (ok: bool)
      ensures ok <==> Admissible(documents, v)
    {
      if (v.kind.ComponentKind? || v.kind.EnvironmentKind?) && (v.app.None? || v.env.None?) { return false; }
      if v.kind.ComponentKind? && (v.app.None? || v.env.None? || v.comp.None?) { return false; }
      var found := FindOne(v);
      return !found;
    }

    /** InsertOne: all-zero ids are left out of the document, and a document id in use is refused. */
    method InsertOne(v: Variable) returns (ok: bool)
      modifies this`documents
      ensures ok <==> !HasId(old(documents), v.id)
      ensures documents == if ok then old(documents) + [Persist(v)] else old(documents)
    {
      var i := 0;
      while i < |documents|
        invariant 0 <= i <= |documents| && documents == old(documents)
        invariant forall j :: 0 <= j < i ==> documents[j].id != v.id
      {
        if documents[i].id == v.id { return false; }
        i := i + 1;
      }
      documents := documents + [Persist(v)];
      return true;
    }

    /** CreateVariable, handler.go:122-167: the record is built field by field. */
    method ReadRequest(request: Request, generated: nat) returns (v: Option<Variable>)
      ensures v.None? <==> IsMalformed(request)
      ensures v.Some? ==> Describes(v.value, request, generated) && v.value.value == request.body.value.value
      ensures forall nonce :: v == Requested(request, IdFor(Create(request, nonce, generated)))
    {
      if request.body.None? || request.body.value.name == "" || request.body.value.value == [] { return None; }
      var body := request.body.value;
      var own := Kept(body.id);
      var variable := Variable(if own.Some? then own.value else generated, body.name, body.value,
                               OrganizationKind, 0, body.app, body.env, body.comp, body.encrypted);
      if !ValidName(variable.name) { return None; }
      if !request.org.Given? { return None; }
      variable := variable.(org := request.org.id, kind := OrganizationKind);
      if request.env != "" {
        variable := variable.(kind := EnvironmentKind, env := Some(request.env));
      }
      if !request.comp.Absent? {
        variable := variable.(kind := ComponentKind);
        if request.comp.Malformed? { return None; }
        variable := variable.(comp := Some(request.comp.id));
      }
      if !request.app.Absent? {
        if request.app.Malformed? { return None; }
        variable := variable.(app := Some(request.app.id));
      }
      return Some(variable);
    }

    /**
      CreateVariable, handler.go:121-192: the record is read, checked, encrypted and inserted. The status is as the
      request and the documents call for, and a created document is the one described.
     */
    method CreateVariable(request: Request, nonce: Bytes, generated: nat) returns (status: Status)
      modifies this`documents
      ensures documents == Step(cipher, key, old(documents), Create(request, nonce, generated))
      ensures Answers(old(documents), key, request, generated, status)
      ensures status.Created? ==>
                && |documents| == |old(documents)| + 1 && documents[..|old(documents)|] == old(documents)
                && request.body.Some? && request.org.Given?
                && var d := documents[|old(documents)|];
                   (exists v :: Describes(v, request, generated) && IsDocumentOf(d, v))
                   && HoldsValue(d, cipher, key, nonce, request.body.value.value)
      ensures !status.Created? ==> documents == old(documents)
    {
      ghost var op := Create(request, nonce, generated);
      var v := ReadRequest(request, generated);
      assert v == Requested(request, IdFor(op));
      if v.None? { return InvalidRequest; }
      var variable := v.value;
      AdmissibleIff(documents, variable, request, generated);
      SecretIsSealed(cipher, key, nonce, variable.value);
      var ok := CheckVariable(variable);
      if !ok { return InvalidRequest; }
      if variable.encrypted {
        var e := EncryptValue(cipher, key, nonce, variable.value);
        if e.None? { return Panicked; }
        variable := variable.(value := e.value);
      }
      assert Describes(variable, request, generated) && IsDocumentOf(Persist(variable), variable);
      ok := InsertOne(variable);
      return if ok then Created else DatabaseError;
    }

    method DeleteOne(id: nat)
      modifies this`documents
      ensures documents == Without(old(documents), id)
    {
      var docs := documents;
      var i := 0;
      while i < |docs|
        invariant 0 <= i <= |docs| && documents == docs
        invariant Without(docs, id) == docs[..i] + Without(docs[i..], id)
      {
        assert docs[i..][1..] == docs[i + 1..];
        if docs[i].id == id {
          documents := docs[..i] + docs[i + 1..];
          return;
        }
        assert docs[..i + 1] + Without(docs[i + 1..], id) == docs[..i] + ([docs[i]] + Without(docs[i + 1..], id));
        i := i + 1;
      }
      assert docs[..i] == docs;
    }

    /**
      DeleteVariable, handler.go:194-232; `account` is the account of the organization looked up, None when the lookup
      fails, and `user` the caller's.
     */
    method DeleteVariable(org: Param, id: Param, account: Option<nat>, user: nat) returns (status: Status)
      modifies this`documents
      ensures documents == if org.Given? && id.Given? then
                             Step(cipher, key, old(documents), Delete(account == Some(user), id.id))
                           else old(documents)
      ensures status == if !org.Given? || !id.Given? then InvalidRequest
                        else if account.None? then OrganizationError
                        else if account.value == user then NoContent else NotAllowed
      ensures documents == if status.NoContent? then Without(old(documents), id.id) else old(documents)
    {
      if !org.Given? || !id.Given? { return InvalidRequest; }
      if account.None? { return OrganizationError; }
      if account.value != user { return NotAllowed; }
      DeleteOne(id.id);
      return NoContent;
    }

    /** The decryption loop of the list handlers, in place; false where it panics. */
    method DecryptAll(variables: array<Variable>) returns (ok: bool)
      modifies variables
      ensures ok ==> RevealAll(cipher, key, old(variables[..])) == Some(variables[..])
      ensures !ok ==> RevealAll(cipher, key, old(variables[..])).None?
    {
      ghost var docs := variables[..];
      var i := 0;
      while i < variables.Length
        invariant 0 <= i <= variables.Length
        invariant RevealAll(cipher, key, docs[..i]) == Some(variables[..i])
        invariant variables[i..] == docs[i..]
      {
        RevealNext(cipher, key, docs, i, variables[..i]);
        assert variables[i] == variables[i..][0] == docs[i];
        if variables[i].encrypted {
          var d := DecryptValue(cipher, key, variables[i].value);
          if d.None? {
            RevealPrefix(cipher, key, docs, i + 1);
            return false;
          }
          variables[i] := variables[i].(value := d.value);
        }
        i := i + 1;
        assert variables[..i] == variables[..i - 1] + [variables[i - 1]];
      }
      assert docs[..i] == docs && variables[..i] == variables[..];
      return true;
    }

    /** The body shared by the three list handlers; None where decryption panics. */
    method List(s: Scope) returns (r: Option<seq<Variable>>)
      ensures r == Listing(cipher, key, documents, s)
    {
      var found := Query(documents, s);
      var variables := new Variable[|found|](i requires 0 <= i < |found| => found[i]);
      assert variables[..] == found;
      var ok := DecryptAll(variables);
      return if ok then Some(variables[..]) else None;
    }

    /** handler.go:31-53. */
    method ListOrganizationVariables(org: Param) returns (status: Status, r: seq<Variable>)
      ensures status.InvalidRequest? <==> !org.Given?
      ensures org.Given? ==>
                Listing(cipher, key, documents, OfOrganization(org.id)) == if status.Listed? then Some(r) else None
    {
      if !org.Given? { return InvalidRequest, []; }
      var found := List(OfOrganization(org.id));
      if found.None? { return Panicked, []; }
      return Listed, found.value;
    }

    /** handler.go:55-84. */
    method ListEnvironmentVariables(org: Param, app: Param, env: string) returns (status: Status, r: seq<Variable>)
      ensures status.InvalidRequest? <==> !org.Given? || !app.Given?
      ensures org.Given? && app.Given? ==>
                Listing(cipher, key, documents, OfEnvironment(org.id, app.id, env))
                == if status.Listed? then Some(r) else None
    {
      if !org.Given? || !app.Given? { return InvalidRequest, []; }
      var found := List(OfEnvironment(org.id, app.id, env));
      if found.None? { return Panicked, []; }
      return Listed, found.value;
    }

    /** handler.go:86-119. */
    method ListComponentVariables(org: Param, app: Param, env: string, comp: Param)
      returns (status: Status, r: seq<Variable>)
      ensures status.InvalidRequest? <==> !org.Given? || !app.Given? || !comp.Given?
      ensures org.Given? && app.Given? && comp.Given? ==>
                Listing(cipher, key, documents, OfComponent(org.id, app.id, env, comp.id))
                == if status.Listed? then Some(r) else None
    {
      if !org.Given? || !app.Given? || !comp.Given? { return InvalidRequest, []; }
      var found := List(OfComponent(org.id, app.id, env, comp.id));
      if found.None? { return Panicked, []; }
      return Listed, found.value;
    }
  }
}
