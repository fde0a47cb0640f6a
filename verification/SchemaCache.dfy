/** The two caches of the schema registry client, against a registry other clients also write to:
    concurrent callers interleave look-up, request and store. */
module SchemaCache {
  import opened Text

  /** A schema under a subject. The registry takes a missing type for AVRO. */
  datatype RegKey = RegKey(subject: string, schema: string, kind: string)

  /** What a caller registers: the type as the caller gave it. */
  datatype Registration = Registration(subject: string, schema: string, kind: string)

  function KeyOf(r: Registration): RegKey {
    RegKey(r.subject, r.schema, if r.kind == "" then "AVRO" else r.kind)
  }

  datatype Metadata = Metadata(id: int, version: int, schema: string, subject: string, kind: string)

  /** The registry: schemas by id, ids by registration, the latest version per subject. */
  datatype Remote = Remote(schemas: map<int, string>, ids: map<RegKey, int>, latest: map<string, Metadata>)

  /** A registered id names the registered schema. */
  ghost predicate Consistent(r: Remote) {
    && (forall k :: k in r.ids ==> r.ids[k] in r.schemas && r.schemas[r.ids[k]] == k.schema)
    && (forall s :: s in r.latest ==> r.latest[s].id in r.schemas && r.schemas[r.latest[s].id] == r.latest[s].schema)
  }

  /** The registry only grows: an id keeps its schema, a registration its id. */
  ghost predicate Extends(r: Remote, older: Remote) {
    && (forall id :: id in older.schemas ==> id in r.schemas && r.schemas[id] == older.schemas[id])
    && (forall k :: k in older.ids ==> k in r.ids && r.ids[k] == older.ids[k])
  }

  // ----- The cache key

  /** "subject:type:schema" */
  function CacheKey(r: Registration): string {
    r.subject + ":" + r.kind + ":" + r.schema
  }

  predicate Plain(r: Registration) { ':' !in r.subject && ':' !in r.kind }

  lemma {:induction false} FirstColon(a: string, x: string, b: string, y: string)
    requires ':' !in a && ':' !in b && a + ":" + x == b + ":" + y
    ensures a == b && x == y
  {
    var l, r := a + ":" + x, b + ":" + y;
    if a == "" || b == "" {
      assert l[0] == r[0];
      assert a == b;
      assert l[1..] == x && r[1..] == y;
    } else {
      assert l[0] == r[0] && l[1..] == a[1..] + ":" + x && r[1..] == b[1..] + ":" + y;
      FirstColon(a[1..], x, b[1..], y);
      assert a == [a[0]] + a[1..] && b == [b[0]] + b[1..];
    }
  }

  /** Without colons in subject and type the key determines the registration, whatever the schema. */
  lemma KeyInjective(a: Registration, b: Registration)
    requires Plain(a) && Plain(b) && CacheKey(a) == CacheKey(b)
    ensures a == b
  {
    assert CacheKey(a) == a.subject + ":" + (a.kind + ":" + a.schema);
    assert CacheKey(b) == b.subject + ":" + (b.kind + ":" + b.schema);
    FirstColon(a.subject, a.kind + ":" + a.schema, b.subject, b.kind + ":" + b.schema);
    FirstColon(a.kind, a.schema, b.kind, b.schema);
  }

  lemma {:induction false} CutColon(s: string) returns (p: string, q: string)
    requires ':' in s
    ensures s == p + ":" + q
  {
    var i :| 0 <= i < |s| && s[i] == ':';
    p, q := s[..i], s[i + 1..];
  }

  predicate HasColon(r: Registration) { ':' in r.subject || ':' in r.kind || ':' in r.schema }

  /** With a colon anywhere, in the schema too, another registration, of another schema, has the same key. */
  lemma KeyCollides(a: Registration) returns (b: Registration)
    requires HasColon(a)
    ensures CacheKey(b) == CacheKey(a) && b.schema != a.schema
  {
    if ':' in a.subject {
      var p, q := CutColon(a.subject);
      b := Registration(p, a.kind + ":" + a.schema, q);
      assert CacheKey(b) == p + ":" + q + ":" + a.kind + ":" + a.schema;
      assert CacheKey(a) == p + ":" + q + ":" + a.kind + ":" + a.schema;
      assert |b.schema| > |a.schema|;
    } else if ':' in a.kind {
      var p, q := CutColon(a.kind);
      b := Registration(a.subject, q + ":" + a.schema, p);
      assert CacheKey(b) == a.subject + ":" + p + ":" + q + ":" + a.schema;
      assert CacheKey(a) == a.subject + ":" + p + ":" + q + ":" + a.schema;
      assert |b.schema| > |a.schema|;
    } else {
      var p, q := CutColon(a.schema);
      b := Registration(a.subject + ":" + a.kind, q, p);
      assert CacheKey(b) == a.subject + ":" + a.kind + ":" + p + ":" + q;
      assert CacheKey(a) == a.subject + ":" + a.kind + ":" + p + ":" + q;
      assert |b.schema| < |a.schema|;
    }
  }

  function Colons(s: string): (n: nat)
    ensures n == 0 <==> ':' !in s
  {
    if s == "" then 0 else (if s[0] == ':' then 1 else 0) + Colons(s[1..])
  }

  lemma {:induction false} ColonsAppend(a: string, b: string)
    ensures Colons(a + b) == Colons(a) + Colons(b)
  {
    if a == "" {
      assert a + b == b;
    } else {
      ColonsAppend(a[1..], b);
      assert (a + b)[1..] == a[1..] + b;
    }
  }

  lemma KeyColons(r: Registration)
    ensures Colons(CacheKey(r)) == Colons(r.subject) + Colons(r.kind) + Colons(r.schema) + 2
  {
    ColonsAppend(r.subject, ":");
    ColonsAppend(r.subject + ":", r.kind);
    ColonsAppend(r.subject + ":" + r.kind, ":");
    ColonsAppend(r.subject + ":" + r.kind + ":", r.schema);
    assert ":"[1..] == "" && Colons(":") == 1;
  }

  /** The key belongs to one registration alone exactly when no part of it has a colon. */
  lemma KeyUnique(a: Registration)
    ensures (forall b :: CacheKey(b) == CacheKey(a) ==> b == a) <==> !HasColon(a)
  {
    if HasColon(a) {
      var b := KeyCollides(a);
      assert CacheKey(b) == CacheKey(a) && b != a;
    } else {
      forall b | CacheKey(b) == CacheKey(a) ensures b == a {
        KeyColons(a);
        KeyColons(b);
        KeyInjective(b, a);
      }
    }
  }

  // ----- The steps

  /** A caller between its look-up and its store. */
  datatype Caller =
    | Idle
    | WantSchema(id: int) | HaveSchema(id: int, schema: string)
    | WantLatest(subject: string) | HaveLatest(meta: Metadata)
    | WantId(reg: Registration) | HaveId(reg: Registration, id: int)

  datatype Answer = SchemaIs(id: int, schema: string) | LatestIs(meta: Metadata) | IdIs(reg: Registration,
      id: int) | Failed

  datatype Caches = Caches(schemas: map<int, string>, ids: map<string, int>)

  /** `plain` is history: no registration so far had a colon in its subject or type. */
  datatype State = State(caches: Caches, remote: Remote, callers: seq<Caller>, answers: seq<Answer>, plain: bool)

  datatype Action =
    | Grow(remote: Remote)
    | GetSchema(c: nat, id: int) | FetchSchema(c: nat, fails: bool) | StoreSchema(c: nat)
    | GetLatest(c: nat, subject: string) | FetchLatest(c: nat, fails: bool) | StoreLatest(c: nat)
    | Register(c: nat, reg: Registration) | PostSchema(c: nat, remote: Remote, lost: bool) | StoreId(c: nat)

  function Init(remote: Remote, n: nat): State {
    State(Caches(map[], map[]), remote, seq(n, _ => Idle), [], true)
  }

  predicate CallerAt(s: State, c: nat) { c < |s.callers| }

  ghost predicate Enabled(s: State, a: Action) {
    match a
    case Grow(r) => Extends(r, s.remote) && Consistent(r)
    case GetSchema(c, _) => CallerAt(s, c) && s.callers[c].Idle?
    case GetLatest(c, _) => CallerAt(s, c) && s.callers[c].Idle?
    case Register(c, _) => CallerAt(s, c) && s.callers[c].Idle?
    case FetchSchema(c, _) => CallerAt(s, c) && s.callers[c].WantSchema?
    case FetchLatest(c, _) => CallerAt(s, c) && s.callers[c].WantLatest?
    // The registry knows the registration afterwards, whether or not its answer gets back.
    case PostSchema(c, r, lost) =>
      && CallerAt(s, c) && s.callers[c].WantId?
      && Extends(r, s.remote) && Consistent(r)
      && (!lost ==> KeyOf(s.callers[c].reg) in r.ids)
    case StoreSchema(c) => CallerAt(s, c) && s.callers[c].HaveSchema?
    case StoreLatest(c) => CallerAt(s, c) && s.callers[c].HaveLatest?
    case StoreId(c) => CallerAt(s, c) && s.callers[c].HaveId?
  }

  function Move(s: State, c: nat, to: Caller): State
    requires CallerAt(s, c)
  {
    s.(callers := s.callers[c := to])
  }

  function Reply(s: State, c: nat, answer: Answer): State
    requires CallerAt(s, c)
  {
    Move(s, c, Idle).(answers := s.answers + [answer])
  }

  function CacheSchema(c: Caches, id: int, schema: string): Caches { c.(schemas := c.schemas[id := schema]) }

  function CacheId(c: Caches, r: Registration, id: int): Caches { c.(ids := c.ids[CacheKey(r) := id]) }

  ghost function Next(s: State, a: Action): State
    requires Enabled(s, a)
  {
    match a
    case Grow(r) => s.(remote := r)
    case GetSchema(c, id) =>
      if id in s.caches.schemas then Reply(s, c, SchemaIs(id, s.caches.schemas[id])) else Move(s, c, WantSchema(id))
    case FetchSchema(c, fails) =>
      var id := s.callers[c].id;
      if fails || id !in s.remote.schemas then Reply(s, c, Failed)
      else Move(s, c, HaveSchema(id, s.remote.schemas[id]))
    case StoreSchema(c) =>
      var x := s.callers[c];
      Reply(s, c, SchemaIs(x.id, x.schema)).(caches := CacheSchema(s.caches, x.id, x.schema))
    case GetLatest(c, subject) => Move(s, c, WantLatest(subject))
    case FetchLatest(c, fails) =>
      var subject := s.callers[c].subject;
      if fails || subject !in s.remote.latest then Reply(s, c, Failed)
      else Move(s, c, HaveLatest(s.remote.latest[subject].(subject := subject)))
    case StoreLatest(c) =>
      var m := s.callers[c].meta;
      Reply(s, c, LatestIs(m)).(caches := CacheSchema(s.caches, m.id, m.schema))
    case Register(c, reg) =>
      var t := s.(plain := s.plain && Plain(reg));
      if CacheKey(reg) in s.caches.ids then Reply(t, c, IdIs(reg, s.caches.ids[CacheKey(reg)]))
      else Move(t, c, WantId(reg))
    case PostSchema(c, r, lost) =>
      var t := s.(remote := r);
      if lost then Reply(t, c, Failed) else Move(t, c, HaveId(s.callers[c].reg, r.ids[KeyOf(s.callers[c].reg)]))
    case StoreId(c) =>
      var x := s.callers[c];
      Reply(s, c, IdIs(x.reg, x.id)).(caches := CacheId(s.caches, x.reg, x.id))
  }

  ghost predicate CanRun(s: State, acts: seq<Action>)
    decreases |acts|
  {
    acts == [] || (Enabled(s, acts[0]) && CanRun(Next(s, acts[0]), acts[1..]))
  }

  ghost function After(s: State, acts: seq<Action>): State
    requires CanRun(s, acts)
    decreases |acts|
  {
    if acts == [] then s else After(Next(s, acts[0]), acts[1..])
  }

  // ----- Agreement with the registry

  predicate HasSchema(r: Remote, id: int, schema: string) { id in r.schemas && r.schemas[id] == schema }

  predicate HasId(r: Remote, reg: Registration, id: int) { KeyOf(reg) in r.ids && r.ids[KeyOf(reg)] == id }

  /** The id-to-schema cache is a submap of the registry. */
  ghost predicate SchemasAgree(c: Caches, r: Remote) {
    forall id :: id in c.schemas ==> HasSchema(r, id, c.schemas[id])
  }

  /** A hit for a registration without colons is the id the registry would return. */
  ghost predicate IdsAgree(c: Caches, r: Remote) {
    forall reg :: Plain(reg) && CacheKey(reg) in c.ids ==> HasId(r, reg, c.ids[CacheKey(reg)])
  }

  ghost predicate CallerAgrees(x: Caller, r: Remote, plain: bool) {
    && (x.HaveSchema? ==> HasSchema(r, x.id, x.schema))
    && (x.HaveLatest? ==> HasSchema(r, x.meta.id, x.meta.schema))
    && (x.HaveId? ==> HasId(r, x.reg, x.id))
    && (plain && (x.WantId? || x.HaveId?) ==> Plain(x.reg))
  }

  ghost predicate AnswerAgrees(x: Answer, r: Remote, plain: bool) {
    && (x.SchemaIs? ==> HasSchema(r, x.id, x.schema))
    && (x.LatestIs? ==> HasSchema(r, x.meta.id, x.meta.schema))
    && (x.IdIs? && plain ==> HasId(r, x.reg, x.id))
  }

  ghost predicate Inv(s: State) {
    && Consistent(s.remote)
    && SchemasAgree(s.caches, s.remote)
    && (s.plain ==> IdsAgree(s.caches, s.remote))
    && (forall c :: 0 <= c < |s.callers| ==> CallerAgrees(s.callers[c], s.remote, s.plain))
    && (forall i :: 0 <= i < |s.answers| ==> AnswerAgrees(s.answers[i], s.remote, s.plain))
  }

  lemma StoreIdAgrees(c: Caches, r: Remote, reg: Registration, id: int)
    requires IdsAgree(c, r) && Plain(reg) && HasId(r, reg, id)
    ensures IdsAgree(CacheId(c, reg, id), r)
  {
    forall x | Plain(x) && CacheKey(x) in CacheId(c, reg, id).ids
        ensures HasId(r, x, CacheId(c, reg, id).ids[CacheKey(x)]) {
      if CacheKey(x) == CacheKey(reg) {
        KeyInjective(x, reg);
      }
    }
  }

  /** Growth keeps every agreement. */
  lemma GrowKeeps(s: State, r: Remote)
    requires Inv(s) && Extends(r, s.remote) && Consistent(r)
    ensures Inv(s.(remote := r))
  {
  }

  lemma MoveKeeps(s: State, c: nat, to: Caller)
    requires Inv(s) && CallerAt(s, c) && CallerAgrees(to, s.remote, s.plain)
    ensures Inv(Move(s, c, to))
  {
  }

  lemma ReplyKeeps(s: State, c: nat, answer: Answer)
    requires Inv(s) && CallerAt(s, c) && AnswerAgrees(answer, s.remote, s.plain)
    ensures Inv(Reply(s, c, answer))
  {
    MoveKeeps(s, c, Idle);
  }

  lemma RegisterKeeps(s: State, c: nat, reg: Registration)
    requires Inv(s) && Enabled(s, Register(c, reg))
    ensures Inv(Next(s, Register(c, reg)))
  {
    var t := s.(plain := s.plain && Plain(reg));
    assert Inv(t);
    if CacheKey(reg) in s.caches.ids {
      ReplyKeeps(t, c, IdIs(reg, s.caches.ids[CacheKey(reg)]));
    } else {
      MoveKeeps(t, c, WantId(reg));
    }
  }

  lemma FetchKeeps(s: State, a: Action)
    requires Inv(s) && Enabled(s, a) && (a.FetchSchema? || a.FetchLatest?)
    ensures Inv(Next(s, a))
  {
    ReplyKeeps(s, a.c, Failed);
    if Next(s, a) != Reply(s, a.c, Failed) {
      MoveKeeps(s, a.c, Next(s, a).callers[a.c]);
    }
  }

  lemma PostKeeps(s: State, a: Action)
    requires Inv(s) && Enabled(s, a) && a.PostSchema?
    ensures Inv(Next(s, a))
  {
    var t, reg := s.(remote := a.remote), s.callers[a.c].reg;
    GrowKeeps(s, a.remote);
    if a.lost {
      ReplyKeeps(t, a.c, Failed);
    } else {
      MoveKeeps(t, a.c, HaveId(reg, a.remote.ids[KeyOf(reg)]));
    }
  }

  lemma StoreKeeps(s: State, c: nat, id: int, schema: string)
    requires Inv(s) && CallerAt(s, c) && HasSchema(s.remote, id, schema)
    ensures forall answer :: AnswerAgrees(answer, s.remote, s.plain) ==>
      Inv(Reply(s, c, answer).(caches := CacheSchema(s.caches, id, schema)))
  {
    forall answer | AnswerAgrees(answer, s.remote, s.plain)
      ensures Inv(Reply(s, c, answer).(caches := CacheSchema(s.caches, id, schema)))
    {
      ReplyKeeps(s, c, answer);
    }
  }

  lemma InvStep(s: State, a: Action)
    requires Inv(s) && Enabled(s, a)
    ensures Inv(Next(s, a)) && Extends(Next(s, a).remote, s.remote)
  {
    match a {
      case Grow(r) => GrowKeeps(s, r);
      case GetSchema(c, id) =>
        MoveKeeps(s, c, WantSchema(id));
        if id in s.caches.schemas {
          ReplyKeeps(s, c, SchemaIs(id, s.caches.schemas[id]));
        }
      case GetLatest(c, subject) => MoveKeeps(s, c, WantLatest(subject));
      case Register(c, reg) => RegisterKeeps(s, c, reg);
      case FetchSchema(c, _) => FetchKeeps(s, a);
      case FetchLatest(c, _) => FetchKeeps(s, a);
      case PostSchema(c, r, _) => PostKeeps(s, a);
      case StoreSchema(c) => StoreKeeps(s, c, s.callers[c].id, s.callers[c].schema);
      case StoreLatest(c) => StoreKeeps(s, c, s.callers[c].meta.id, s.callers[c].meta.schema);
      case StoreId(c) =>
        ReplyKeeps(s, c, IdIs(s.callers[c].reg, s.callers[c].id));
        if s.plain {
          StoreIdAgrees(s.caches, s.remote, s.callers[c].reg, s.callers[c].id);
        }
    }
  }

  lemma {:induction false} InvRun(s: State, acts: seq<Action>)
    requires Inv(s) && CanRun(s, acts)
    ensures Inv(After(s, acts)) && Extends(After(s, acts).remote, s.remote)
    decreases |acts|
  {
    if acts != [] {
      InvStep(s, acts[0]);
      InvRun(Next(s, acts[0]), acts[1..]);
    }
  }

  /** In every interleaving the schema cache is a submap of the registry and every schema answered is
      the registry's; and as long as no subject or type had a colon, every id answered, from the cache
      or not, is the id a fresh registration would return. */
  lemma CachesAgree(remote: Remote, n: nat, acts: seq<Action>)
    requires Consistent(remote) && CanRun(Init(remote, n), acts)
    ensures
      var s := After(Init(remote, n), acts);
      && (forall id :: id in s.caches.schemas ==> HasSchema(s.remote, id, s.caches.schemas[id]))
      && (forall i :: 0 <= i < |s.answers| && s.answers[i].SchemaIs? ==>
          HasSchema(s.remote, s.answers[i].id, s.answers[i].schema))
      && (forall i :: 0 <= i < |s.answers| && s.answers[i].LatestIs? ==>
          HasSchema(s.remote, s.answers[i].meta.id, s.answers[i].meta.schema))
      && (s.plain ==> forall i :: 0 <= i < |s.answers| && s.answers[i].IdIs? ==>
          HasId(s.remote, s.answers[i].reg, s.answers[i].id))
      && (s.plain ==> forall reg :: Plain(reg) && CacheKey(reg) in s.caches.ids ==>
          HasId(s.remote, reg, s.caches.ids[CacheKey(reg)]))
  {
    InvRun(Init(remote, n), acts);
  }

  // ----- Wrong answers

  /** The caller asks for a registration and is answered, from the cache, an id that is not its own. */
  ghost predicate AnsweredWrongly(s: State, c: nat, reg: Registration)
    requires CallerAt(s, c) && s.callers[c].Idle?
  {
    var t := Next(s, Register(c, reg));
    exists id :: t.answers == s.answers + [IdIs(reg, id)] && !HasId(t.remote, reg, id)
  }

  lemma HitIsWrong(s: State, c: nat, a: Registration, b: Registration)
    requires Consistent(s.remote) && CallerAt(s, c) && s.callers[c].Idle?
    requires CacheKey(a) in s.caches.ids && HasId(s.remote, a, s.caches.ids[CacheKey(a)])
    requires CacheKey(b) == CacheKey(a) && b.schema != a.schema
    ensures AnsweredWrongly(s, c, b)
  {
    var id := s.caches.ids[CacheKey(a)];
    var t := Next(s, Register(c, b));
    assert t.answers == s.answers + [IdIs(b, id)] && t.remote == s.remote;
    assert s.remote.schemas[s.remote.ids[KeyOf(a)]] == a.schema;
    assert !HasId(s.remote, b, id);
  }

  /** Once a registration is cached under its right id, some request for its key is answered wrongly
      exactly when the registration has a colon. */
  lemma WrongAnswers(s: State, c: nat, a: Registration)
    requires Consistent(s.remote) && CallerAt(s, c) && s.callers[c].Idle?
    requires CacheKey(a) in s.caches.ids && HasId(s.remote, a, s.caches.ids[CacheKey(a)])
    ensures (exists b :: CacheKey(b) == CacheKey(a) && AnsweredWrongly(s, c, b)) <==> HasColon(a)
  {
    if HasColon(a) {
      var b := KeyCollides(a);
      HitIsWrong(s, c, a, b);
    } else {
      KeyUnique(a);
      forall b | CacheKey(b) == CacheKey(a) ensures !AnsweredWrongly(s, c, b) {
        var t, id := Next(s, Register(c, a)), s.caches.ids[CacheKey(a)];
        assert b == a && t.answers == s.answers + [IdIs(a, id)];
        assert t.answers[|s.answers|] == IdIs(a, id);
        forall other | t.answers == s.answers + [IdIs(a, other)] ensures other == id {
          assert (s.answers + [IdIs(a, other)])[|s.answers|] == IdIs(a, other);
        }
      }
    }
  }

  /** The run: register `a`, which has a colon; the next request may be answered wrongly. */
  lemma CachedWrongAnswer(remote: Remote, n: nat, a: Registration) returns (b: Registration, acts: seq<Action>)
    requires Consistent(remote) && KeyOf(a) in remote.ids && HasColon(a) && n >= 1
    ensures CanRun(Init(remote, n), acts)
    ensures
      var t := After(Init(remote, n), acts);
      CallerAt(t, 0) && t.callers[0].Idle? && AnsweredWrongly(t, 0, b)
  {
    var s0 := Init(remote, n);
    var s1 := Next(s0, Register(0, a));
    var s2 := Next(s1, PostSchema(0, remote, false));
    var s3 := Next(s2, StoreId(0));
    b := KeyCollides(a);
    Chain(s2, StoreId(0), []);
    Chain(s1, PostSchema(0, remote, false), [StoreId(0)] + []);
    Chain(s0, Register(0, a), [PostSchema(0, remote, false)] + ([StoreId(0)] + []));
    acts := [Register(0, a)] + ([PostSchema(0, remote, false)] + ([StoreId(0)] + []));
    HitIsWrong(s3, 0, a, b);
  }

  // ----- Requests that get through are answered

  lemma Chain(s: State, a: Action, acts: seq<Action>)
    requires Enabled(s, a) && CanRun(Next(s, a), acts)
    ensures CanRun(s, [a] + acts) && After(s, [a] + acts) == After(Next(s, a), acts)
  {
    assert ([a] + acts)[1..] == acts;
  }

  lemma TwoSteps(s: State, a: Action, b: Action)
    requires Enabled(s, a) && Enabled(Next(s, a), b)
    ensures CanRun(s, [a, b]) && After(s, [a, b]) == Next(Next(s, a), b)
  {
    Chain(Next(s, a), b, []);
    Chain(s, a, [b] + []);
    assert [a, b] == [a] + ([b] + []);
  }

  lemma ThreeSteps(s: State, a: Action, b: Action, c: Action)
    requires Enabled(s, a) && Enabled(Next(s, a), b) && Enabled(Next(Next(s, a), b), c)
    ensures CanRun(s, [a, b, c]) && After(s, [a, b, c]) == Next(Next(Next(s, a), b), c)
  {
    TwoSteps(Next(s, a), b, c);
    Chain(s, a, [b, c]);
    assert [a, b, c] == [a] + [b, c];
  }

  predicate Free(s: State, c: nat) { CallerAt(s, c) && s.callers[c].Idle? }

  /** A cached schema is answered at once; one that is not cached, when the registry has it and the request gets
      through, is answered and cached; otherwise the caller is told of the failure. */
  lemma SchemaRequest(s: State, c: nat, id: int, fails: bool)
    requires Free(s, c)
    ensures id in s.caches.schemas ==>
      Next(s, GetSchema(c, id)) == s.(answers := s.answers + [SchemaIs(id, s.caches.schemas[id])])
    ensures id !in s.caches.schemas && id in s.remote.schemas && !fails ==>
      var acts, schema := [GetSchema(c, id), FetchSchema(c, false), StoreSchema(c)], s.remote.schemas[id];
      && CanRun(s, acts)
      && After(s, acts) == s.(answers := s.answers + [SchemaIs(id, schema)],
                              caches := s.caches.(schemas := s.caches.schemas[id := schema]))
    ensures id !in s.caches.schemas && (id !in s.remote.schemas || fails) ==>
      var acts := [GetSchema(c, id), FetchSchema(c, fails)];
      CanRun(s, acts) && After(s, acts) == s.(answers := s.answers + [Failed])
  {
    var t := Next(s, GetSchema(c, id));
    if id in s.caches.schemas {
      assert t.callers == s.callers;
    } else {
      var u := Next(t, FetchSchema(c, fails));
      if id in s.remote.schemas && !fails {
        ThreeSteps(s, GetSchema(c, id), FetchSchema(c, false), StoreSchema(c));
        assert Next(u, StoreSchema(c)).callers == s.callers;
      } else {
        TwoSteps(s, GetSchema(c, id), FetchSchema(c, fails));
        assert u.callers == s.callers;
      }
    }
  }

  /** The latest version of a subject is asked for every time; what comes back is answered and its schema cached. */
  lemma LatestRequest(s: State, c: nat, subject: string, fails: bool)
    requires Free(s, c)
    ensures subject in s.remote.latest && !fails ==>
      var acts, m := [GetLatest(c, subject), FetchLatest(c, false), StoreLatest(c)],
          s.remote.latest[subject].(subject := subject);
      && CanRun(s, acts)
      && After(s, acts) == s.(answers := s.answers + [LatestIs(m)],
                              caches := s.caches.(schemas := s.caches.schemas[m.id := m.schema]))
    ensures subject !in s.remote.latest || fails ==>
      var acts := [GetLatest(c, subject), FetchLatest(c, fails)];
      CanRun(s, acts) && After(s, acts) == s.(answers := s.answers + [Failed])
  {
    var u := Next(Next(s, GetLatest(c, subject)), FetchLatest(c, fails));
    if subject in s.remote.latest && !fails {
      ThreeSteps(s, GetLatest(c, subject), FetchLatest(c, false), StoreLatest(c));
      assert Next(u, StoreLatest(c)).callers == s.callers;
    } else {
      TwoSteps(s, GetLatest(c, subject), FetchLatest(c, fails));
      assert u.callers == s.callers;
    }
  }

  /** A registration that is not cached is posted; the registry's id is answered and cached under its key. */
  lemma IdRequest(s: State, c: nat, reg: Registration, r: Remote)
    requires Free(s, c) && CacheKey(reg) !in s.caches.ids
    requires Extends(r, s.remote) && Consistent(r) && KeyOf(reg) in r.ids
    ensures
      var acts, id := [Register(c, reg), PostSchema(c, r, false), StoreId(c)], r.ids[KeyOf(reg)];
      && CanRun(s, acts)
      && After(s, acts) == s.(answers := s.answers + [IdIs(reg, id)], remote := r, plain := s.plain && Plain(reg),
                              caches := s.caches.(ids := s.caches.ids[CacheKey(reg) := id]))
  {
    var t := Next(s, Register(c, reg));
    var u := Next(t, PostSchema(c, r, false));
    ThreeSteps(s, Register(c, reg), PostSchema(c, r, false), StoreId(c));
    assert Next(u, StoreId(c)).callers == s.callers;
  }
}
