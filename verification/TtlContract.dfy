/** What the write endpoints do to a key's time to live and what they report about it, when other clients
    may change anything between the commands of a pipeline that is not a transaction. */
module TtlContract {
  import opened Wrappers

  // ------------------------------------------------------------------
  // The store, seen through its expiries
  // ------------------------------------------------------------------

  datatype Expiry = Never | In(seconds: nat)
  type Store = map<string, Expiry>   // the keys that exist

  // Insert is any write that creates the key if needed and leaves its expiry alone (HSET, SADD, ZADD,
  // INCRBY, ZINCRBY, LPUSH, RPUSH); Redis may reject it. Put is SET or SETEX, PutNew is SET NX.
  datatype Command =
    | Exists(key: string)
    | Expire(key: string, seconds: nat)
    | Persist(key: string)
    | Ttl(key: string)
    | Insert(key: string, accepted: bool)
    | Put(key: string, expiry: Expiry)
    | PutNew(key: string, expiry: Expiry)

  datatype Reply = Number(n: int) | Rejected

  const MISSING := -2
  const NO_TTL := -1

  function TtlReply(store: Store, key: string): int {
    if key !in store then MISSING else match store[key] case Never => NO_TTL case In(n) => n
  }

  function Execute(store: Store, c: Command): (Store, Reply) {
    match c
    case Exists(key) => (store, Number(if key in store then 1 else 0))
    case Expire(key, seconds) => if key in store then (store[key := In(seconds)], Number(1)) else (store, Number(0))
    case Persist(key) =>
      if key in store && store[key] != Never then (store[key := Never], Number(1)) else (store, Number(0))
    case Ttl(key) => (store, Number(TtlReply(store, key)))
    case Insert(key, accepted) =>
      if !accepted then (store, Rejected)
      else (if key in store then store else store[key := Never], Number(1))
    case Put(key, expiry) => (store[key := expiry], Number(1))
    case PutNew(key, expiry) => if key in store then (store, Number(0)) else (store[key := expiry], Number(1))
  }

  function Before(store: Store, other: Option<Store>): Store {
    if other.Some? then other.value else store
  }

  /** A pipeline without a transaction. `others[i]`, if present, is what other clients have turned the
      store into just before command i. */
  function Pipeline(store: Store, commands: seq<Command>, others: seq<Option<Store>>): (r: (Store, seq<Reply>))
    requires |commands| == |others|
    ensures |r.1| == |commands|
    decreases |commands|
  {
    if commands == [] then (store, [])
    else
      var (next, reply) := Execute(Before(store, others[0]), commands[0]);
      var (last, replies) := Pipeline(next, commands[1..], others[1..]);
      (last, [reply] + replies)
  }

  function Quiet(n: nat): seq<Option<Store>> { seq(n, _ => None) }

  /** MULTI/EXEC: nothing comes between the commands. */
  function Transaction(store: Store, commands: seq<Command>): (Store, seq<Reply>) {
    Pipeline(store, commands, Quiet(|commands|))
  }

  // ------------------------------------------------------------------
  // The endpoints
  // ------------------------------------------------------------------

  datatype Response = Success(ttl: int) | Stored | NotFound | InvalidValue | KeyExists | QueueFull | Failed

  function ResolveTtl(body: Option<int>, default: int): int {
    if body.Some? then body.value else default
  }

  function Retime(key: string, ttl: int): Command {
    if ttl > 0 then Expire(key, ttl) else Persist(key)
  }

  function Wanted(ttl: int): Expiry { if ttl > 0 then In(ttl) else Never }

  function Reported(ttl: int): int { if ttl > 0 then ttl else NO_TTL }

  /** A write that succeeded reports -1 rather than -2 if the key is gone by the time TTL runs. */
  function Normalized(reply: Reply): int {
    if reply == Number(MISSING) || reply.Rejected? then NO_TTL else reply.n
  }

  function Touch(store: Store, key: string, ttl: int, others: seq<Option<Store>>): (Store, Response)
    requires |others| == 3
  {
    var (after, results) := Pipeline(store, [Exists(key), Retime(key, ttl), Ttl(key)], others);
    var gone := results[0] == Number(0) || results[2] == Number(MISSING) || results[2].Rejected?;
    (after, if gone then NotFound else Success(results[2].n))
  }

  /** add_group, and set_map_field when the TTL is not positive. A write that Redis rejects raises, after
      the whole pipeline has run. */
  function AddAndRetime(store: Store, key: string, ttl: int, accepted: bool, others: seq<Option<Store>>)
    : (Store, Response)
    requires |others| == 3
  {
    var (after, results) := Pipeline(store, [Insert(key, accepted), Retime(key, ttl), Ttl(key)], others);
    (after, if results[0].Rejected? then Failed else Success(Normalized(results[2])))
  }

  datatype Score = Finite(value: real) | NaN | Infinite(negative: bool)

  /** add_rank and batch_add_rank: every score is checked before the store is touched. */
  function AddRank(store: Store, key: string, ttl: int, scores: seq<Score>, accepted: bool, others: seq<Option<Store>>)
    : (Store, Response)
    requires |others| == 3
  {
    if exists i :: 0 <= i < |scores| && !scores[i].Finite? then (store, InvalidValue)
    else
      var (after, response) := AddAndRetime(store, key, ttl, accepted, others);
      (after, if response == Failed then InvalidValue else response)
  }

  /** The script checks and pushes in one step, and fails as a whole if the key is no list; the expiry follows in
      a second round trip. */
  function PushQueue(store: Store, key: string, ttl: int, full: bool, accepted: bool, others: seq<Option<Store>>)
    : (Store, Response)
    requires |others| == 3
  {
    if !accepted then (Before(store, others[0]), Failed)
    else if full then (Before(store, others[0]), QueueFull)
    else
      var pushed := Execute(Before(store, others[0]), Insert(key, true)).0;
      var (after, results) := Pipeline(pushed, [Retime(key, ttl), Ttl(key)], others[1..]);
      (after, Success(Normalized(results[1])))
  }

  /** set_map, and set_map_field with a positive TTL: one transaction, whose TTL reply is passed on as is. */
  function SetMap(store: Store, key: string, ttl: int, accepted: bool): (Store, Response) {
    var (after, results) := Transaction(store, [Insert(key, accepted), Retime(key, ttl), Ttl(key)]);
    (after, if results[0].Rejected? || results[2].Rejected? then Failed else Success(results[2].n))
  }

  function SetMapField(store: Store, key: string, ttl: int, accepted: bool, others: seq<Option<Store>>)
    : (Store, Response)
    requires |others| == 3
  {
    if ttl > 0 then SetMap(store, key, ttl, accepted) else AddAndRetime(store, key, ttl, accepted, others)
  }

  /** incr_rank checks its delta before the store is touched. */
  function IncrementRank(store: Store, key: string, delta: Score, accepted: bool, others: seq<Option<Store>>)
    : (Store, Response)
    requires |others| == 2
  {
    if !delta.Finite? then (store, InvalidValue) else Increment(store, key, accepted, others)
  }

  /** incr_kv keeps the expiry and reads it back. */
  function Increment(store: Store, key: string, accepted: bool, others: seq<Option<Store>>): (Store, Response)
    requires |others| == 2
  {
    var (after, results) := Pipeline(store, [Insert(key, accepted), Ttl(key)], others);
    (after, if results[0].Rejected? then InvalidValue else Success(Normalized(results[1])))
  }

  /** set_kv and set_kv_nx answer from the TTL they asked for, without reading it back. */
  function SetKv(store: Store, key: string, ttl: int): (Store, Response) {
    (Execute(store, Put(key, Wanted(ttl))).0, Success(Reported(ttl)))
  }

  function SetKvNx(store: Store, key: string, ttl: int): (Store, Response) {
    var (after, reply) := Execute(store, PutNew(key, Wanted(ttl)));
    (after, if reply == Number(0) then KeyExists else Success(Reported(ttl)))
  }

  // Batches run in one transaction and report no TTL. Redis may reject any of their inserts.
  datatype Item = Item(key: string, accepted: bool)

  function RetimeAll(items: seq<Item>, ttl: int): seq<Command> {
    if items == [] then []
    else [Insert(items[0].key, items[0].accepted), Retime(items[0].key, ttl)] + RetimeAll(items[1..], ttl)
  }

  /** A transaction runs to its end and then fails if one of its commands did. */
  function BatchWrite(store: Store, items: seq<Item>, ttl: int): (Store, Response) {
    var (after, results) := Transaction(store, RetimeAll(items, ttl));
    (after, if Rejected in results then Failed else Stored)
  }

  function PutAll(keys: seq<string>, ttl: int): seq<Command> {
    if keys == [] then [] else [Put(keys[0], Wanted(ttl))] + PutAll(keys[1..], ttl)
  }

  // The writes of one key. All of them take the TTL from the body, or else from the configuration.
  datatype Endpoint = AddGroup | AddScores(scores: seq<Score>) | Push(full: bool) | PutMap | PutField | PutKv | PutKvNx

  function Answer(endpoint: Endpoint, store: Store, key: string, body: Option<int>, default: int, accepted: bool,
                  others: seq<Option<Store>>): (Store, Response)
    requires |others| == 3
  {
    var ttl := ResolveTtl(body, default);
    match endpoint
    case AddGroup => AddAndRetime(store, key, ttl, accepted, others)
    case AddScores(scores) => AddRank(store, key, ttl, scores, accepted, others)
    case Push(full) => PushQueue(store, key, ttl, full, accepted, others)
    case PutMap => SetMap(store, key, ttl, accepted)
    case PutField => SetMapField(store, key, ttl, accepted, others)
    case PutKv => SetKv(store, key, ttl)
    case PutKvNx => SetKvNx(store, key, ttl)
  }

  /** batch_add_group and batch_set_map. */
  function AnswerBatch(store: Store, items: seq<Item>, body: Option<int>, default: int): (Store, Response) {
    BatchWrite(store, items, ResolveTtl(body, default))
  }

  /** batch_set_kv. */
  function AnswerPutAll(store: Store, keys: seq<string>, body: Option<int>, default: int): Store {
    Transaction(store, PutAll(keys, ResolveTtl(body, default))).0
  }

  // ------------------------------------------------------------------
  // Whatever other clients do
  // ------------------------------------------------------------------

  /** Short pipelines, unrolled. */
  lemma One(store: Store, a: Command, others: seq<Option<Store>>)
    requires |others| == 1
    ensures var s0 := Before(store, others[0]);
      Pipeline(store, [a], others).0 == Execute(s0, a).0 && Pipeline(store, [a], others).1 == [Execute(s0, a).1]
  {
    var next := Execute(Before(store, others[0]), a).0;
    assert Pipeline(next, [a][1..], others[1..]) == (next, []);
  }

  lemma Two(store: Store, a: Command, b: Command, others: seq<Option<Store>>)
    requires |others| == 2
    ensures var s0 := Before(store, others[0]);
      var s1 := Before(Execute(s0, a).0, others[1]);
      Pipeline(store, [a, b], others).0 == Execute(s1, b).0 &&
        Pipeline(store, [a, b], others).1 == [Execute(s0, a).1, Execute(s1, b).1]
  {
    assert [a, b][1..] == [b];
    One(Execute(Before(store, others[0]), a).0, b, others[1..]);
  }

  lemma Three(store: Store, a: Command, b: Command, c: Command, others: seq<Option<Store>>)
    requires |others| == 3
    ensures var s0 := Before(store, others[0]);
      var s1 := Before(Execute(s0, a).0, others[1]);
      var s2 := Before(Execute(s1, b).0, others[2]);
      && Pipeline(store, [a, b, c], others).0 == Execute(s2, c).0
      && Pipeline(store, [a, b, c], others).1 == [Execute(s0, a).1, Execute(s1, b).1, Execute(s2, c).1]
  {
    assert [a, b, c][1..] == [b, c];
    Two(Execute(Before(store, others[0]), a).0, b, c, others[1..]);
  }

  predicate ReportsLiveTtl(r: Response) { r.Success? ==> r.ttl == NO_TTL || r.ttl >= 0 }

  lemma AddReportsLive(store: Store, key: string, ttl: int, accepted: bool, others: seq<Option<Store>>)
    requires |others| == 3
    ensures ReportsLiveTtl(AddAndRetime(store, key, ttl, accepted, others).1)
  {
    Three(store, Insert(key, accepted), Retime(key, ttl), Ttl(key), others);
  }

  lemma PushReportsLive(store: Store, key: string, ttl: int, full: bool, accepted: bool, others: seq<Option<Store>>)
    requires |others| == 3
    ensures ReportsLiveTtl(PushQueue(store, key, ttl, full, accepted, others).1)
  {
    Two(Execute(Before(store, others[0]), Insert(key, true)).0, Retime(key, ttl), Ttl(key), others[1..]);
  }

  lemma TransactionReportsLive(store: Store, key: string, ttl: int, accepted: bool)
    ensures ReportsLiveTtl(SetMap(store, key, ttl, accepted).1)
  {
    QuietThree(store, Insert(key, accepted), Retime(key, ttl), Ttl(key));
  }

  /** No endpoint ever answers a successful write or touch with the TTL of a missing key. */
  lemma NeverReportsMissing(store: Store, key: string, ttl: int, accepted: bool, full: bool, scores: seq<Score>,
                            others: seq<Option<Store>>)
    requires |others| == 3
    ensures ReportsLiveTtl(Touch(store, key, ttl, others).1)
    ensures ReportsLiveTtl(AddAndRetime(store, key, ttl, accepted, others).1)
    ensures ReportsLiveTtl(AddRank(store, key, ttl, scores, accepted, others).1)
    ensures ReportsLiveTtl(PushQueue(store, key, ttl, full, accepted, others).1)
    ensures ReportsLiveTtl(SetMap(store, key, ttl, accepted).1) &&
      ReportsLiveTtl(SetMapField(store, key, ttl, accepted, others).1)
    ensures ReportsLiveTtl(Increment(store, key, accepted, others[1..]).1)
    ensures forall delta :: ReportsLiveTtl(IncrementRank(store, key, delta, accepted, others[1..]).1)
    ensures ReportsLiveTtl(SetKv(store, key, ttl).1) && ReportsLiveTtl(SetKvNx(store, key, ttl).1)
  {
    Three(store, Exists(key), Retime(key, ttl), Ttl(key), others);
    AddReportsLive(store, key, ttl, accepted, others);
    PushReportsLive(store, key, ttl, full, accepted, others);
    TransactionReportsLive(store, key, ttl, accepted);
    Two(store, Insert(key, accepted), Ttl(key), others[1..]);
  }

  /** Touch answers 404 exactly when the key did not exist at its first or at its last command. */
  lemma TouchNotFound(store: Store, key: string, ttl: int, others: seq<Option<Store>>)
    requires |others| == 3
    ensures var s0 := Before(store, others[0]);
      var s2 := Before(Execute(Before(s0, others[1]), Retime(key, ttl)).0, others[2]);
      Touch(store, key, ttl, others).1 == NotFound <==> key !in s0 || key !in s2
  {
    Three(store, Exists(key), Retime(key, ttl), Ttl(key), others);
  }

  // ------------------------------------------------------------------
  // When nobody interferes
  // ------------------------------------------------------------------

  lemma QuietThree(store: Store, a: Command, b: Command, c: Command)
    ensures var s1 := Execute(store, a).0;
      var s2 := Execute(s1, b).0;
      && Pipeline(store, [a, b, c], Quiet(3)).0 == Execute(s2, c).0
      && Pipeline(store, [a, b, c], Quiet(3)).1 == [Execute(store, a).1, Execute(s1, b).1, Execute(s2, c).1]
  {
    Three(store, a, b, c, Quiet(3));
  }

  lemma AcceptedWrites(store: Store, key: string, ttl: int, scores: seq<Score>)
    requires forall i :: 0 <= i < |scores| ==> scores[i].Finite?
    ensures var done := (store[key := Wanted(ttl)], Success(Reported(ttl)));
      && AddAndRetime(store, key, ttl, true, Quiet(3)) == done
      && AddRank(store, key, ttl, scores, true, Quiet(3)) == done
      && SetMap(store, key, ttl, true) == done && SetMapField(store, key, ttl, true, Quiet(3)) == done
  {
    QuietThree(store, Insert(key, true), Retime(key, ttl), Ttl(key));
    RetimeInserted(store, key, ttl);
  }

  lemma AcceptedPush(store: Store, key: string, ttl: int)
    ensures PushQueue(store, key, ttl, false, true, Quiet(3)) == (store[key := Wanted(ttl)], Success(Reported(ttl)))
  {
    Two(Execute(store, Insert(key, true)).0, Retime(key, ttl), Ttl(key), Quiet(3)[1..]);
    RetimeInserted(store, key, ttl);
  }

  lemma WritesSetResolved(endpoint: Endpoint, store: Store, key: string, body: Option<int>, default: int)
    requires endpoint.AddScores? ==> AllFinite(endpoint.scores)
    requires endpoint.Push? ==> !endpoint.full
    requires endpoint.PutKvNx? ==> key !in store
    ensures var ttl := ResolveTtl(body, default);
      Answer(endpoint, store, key, body, default, true, Quiet(3)) == (store[key := Wanted(ttl)], Success(Reported(ttl)))
  {
    AcceptedWrites(store, key, ResolveTtl(body, default), if endpoint.AddScores? then endpoint.scores else []);
    AcceptedPush(store, key, ResolveTtl(body, default));
  }

  predicate AllFinite(scores: seq<Score>) { forall i :: 0 <= i < |scores| ==> scores[i].Finite? }

  /** Every accepted write leaves its key with the TTL of its body, or else the configured one, or without a TTL
      if that is not positive; no other key changes, and the answer says exactly that. */
  lemma WritesSetTtl(endpoint: Endpoint, store: Store, key: string, body: Option<int>, default: int)
    requires endpoint.AddScores? ==> AllFinite(endpoint.scores)
    requires endpoint.Push? ==> !endpoint.full
    requires endpoint.PutKvNx? ==> key !in store
    ensures var answer := Answer(endpoint, store, key, body, default, true, Quiet(3));
      && (body.Some? && body.value > 0 ==> answer == (store[key := In(body.value)], Success(body.value)))
      && (body.Some? && body.value <= 0 ==> answer == (store[key := Never], Success(-1)))
      && (body.None? && default > 0 ==> answer == (store[key := In(default)], Success(default)))
      && (body.None? && default <= 0 ==> answer == (store[key := Never], Success(-1)))
  {
    WritesSetResolved(endpoint, store, key, body, default);
  }

  /** A write that the endpoint itself refuses changes nothing: a key that must be new and is not, a push to a full
      queue, a score that is not finite. */
  lemma RefusedWritesChangeNothing(store: Store, key: string, body: Option<int>, default: int, scores: seq<Score>,
                                   accepted: bool)
    ensures key in store ==> Answer(PutKvNx, store, key, body, default, accepted, Quiet(3)) == (store, KeyExists)
    ensures Answer(Push(true), store, key, body, default, true, Quiet(3)) == (store, QueueFull)
    ensures !AllFinite(scores) ==>
      Answer(AddScores(scores), store, key, body, default, accepted, Quiet(3)) == (store, InvalidValue)
    ensures forall delta: Score :: !delta.Finite? ==>
      IncrementRank(store, key, delta, accepted, Quiet(2)) == (store, InvalidValue)
  {
  }

  lemma RetimeInserted(store: Store, key: string, ttl: int)
    ensures Execute(Execute(store, Insert(key, true)).0, Retime(key, ttl)).0 == store[key := Wanted(ttl)]
  {
    var inserted := Execute(store, Insert(key, true)).0;
    if ttl <= 0 && inserted[key] == Never {
      assert inserted == store[key := Never];
    }
  }

  /** A touch of an existing key does the same; a touch of a missing one does nothing. */
  lemma TouchSetsTtl(store: Store, key: string, ttl: int)
    ensures key in store && ttl > 0 ==> Touch(store, key, ttl, Quiet(3)) == (store[key := In(ttl)], Success(ttl))
    ensures key in store && ttl <= 0 ==> Touch(store, key, ttl, Quiet(3)) == (store[key := Never], Success(-1))
    ensures key !in store ==> Touch(store, key, ttl, Quiet(3)) == (store, NotFound)
  {
    QuietThree(store, Exists(key), Retime(key, ttl), Ttl(key));
    if key in store && ttl <= 0 && store[key] == Never {
      assert store == store[key := Never];
    }
  }

  /** Increments, of a value or of a score, keep the TTL and report the one that is there; what is new has none. One
      that Redis rejects changes nothing. */
  lemma IncrementKeepsTtl(store: Store, key: string, delta: real)
    ensures forall n: nat :: At(store, key) == Some(In(n)) ==>
      Increment(store, key, true, Quiet(2)) == (store, Success(n))
    ensures At(store, key) == Some(Never) ==> Increment(store, key, true, Quiet(2)) == (store, Success(-1))
    ensures At(store, key) == None ==>
      Increment(store, key, true, Quiet(2)) == (store[key := Never], Success(-1))
    ensures Increment(store, key, false, Quiet(2)) == (store, InvalidValue)
    ensures forall accepted ::
      IncrementRank(store, key, Finite(delta), accepted, Quiet(2)) == Increment(store, key, accepted, Quiet(2))
  {
    Two(store, Insert(key, false), Ttl(key), Quiet(2));
    Two(store, Insert(key, true), Ttl(key), Quiet(2));
  }

  lemma RejectedRetimes(store: Store, key: string, ttl: int)
    ensures Pipeline(store, [Insert(key, false), Retime(key, ttl), Ttl(key)], Quiet(3)).1[0] == Rejected
    ensures Pipeline(store, [Insert(key, false), Retime(key, ttl), Ttl(key)], Quiet(3)).0 == store <==>
            key !in store || store[key] == Wanted(ttl)
  {
    QuietThree(store, Insert(key, false), Retime(key, ttl), Ttl(key));
    if key in store && store[key] == Wanted(ttl) {
      assert store[key := Wanted(ttl)] == store;
    }
  }

  /** A write that Redis itself rejects does change the TTL of an existing key: the rest of the pipeline has
      already run, and so has the rest of a transaction. It changes nothing exactly if there is no such key or
      it already has that TTL. A score that is not finite, which Redis would reject or store beyond recall, is
      refused before that and changes nothing; nor does a push that Redis rejects, since its script fails before
      the second round trip. */
  lemma RejectedWriteStillRetimes(store: Store, key: string, ttl: int, scores: seq<Score>, full: bool)
    ensures AddAndRetime(store, key, ttl, false, Quiet(3)).1 == Failed
    ensures AddAndRetime(store, key, ttl, false, Quiet(3)).0 == store <==> key !in store || store[key] == Wanted(ttl)
    ensures SetMap(store, key, ttl, false).1 == Failed
    ensures SetMap(store, key, ttl, false).0 == store <==> key !in store || store[key] == Wanted(ttl)
    ensures SetMapField(store, key, ttl, false, Quiet(3)).1 == Failed
    ensures SetMapField(store, key, ttl, false, Quiet(3)).0 == store <==> key !in store || store[key] == Wanted(ttl)
    ensures AddRank(store, key, ttl, scores, false, Quiet(3)).1 == InvalidValue
    ensures AddRank(store, key, ttl, scores, false, Quiet(3)).0 == store <==>
      (exists i :: 0 <= i < |scores| && !scores[i].Finite?) || key !in store || store[key] == Wanted(ttl)
    ensures PushQueue(store, key, ttl, full, false, Quiet(3)) == (store, Failed)
  {
    RejectedRetimes(store, key, ttl);
  }

  // --- Batches ---

  function AllWanted(store: Store, keys: seq<string>, ttl: int): Store {
    map key | key in store.Keys + (set k | k in keys) :: if key in keys then Wanted(ttl) else store[key]
  }

  /** The accepted keys exist afterwards; of all keys in the batch, those that exist have the TTL. */
  function AfterBatch(store: Store, items: seq<Item>, ttl: int): Store {
    map key | key in store.Keys + (set x | x in items && x.accepted :: x.key) ::
      if exists x :: x in items && x.key == key then Wanted(ttl) else store[key]
  }

  lemma RejectedInsert(store: Store, key: string, ttl: int)
    ensures Execute(Execute(store, Insert(key, false)).0, Retime(key, ttl)).0 ==
      if key in store then store[key := Wanted(ttl)] else store
  {
    if key in store && store[key] == Wanted(ttl) {
      assert store == store[key := Wanted(ttl)];
    }
  }

  lemma AfterBatchFrom(store: Store, items: seq<Item>, ttl: int)
    requires items != []
    ensures var x := items[0];
      AfterBatch(if x.accepted || x.key in store then store[x.key := Wanted(ttl)] else store, items[1..], ttl)
      == AfterBatch(store, items, ttl)
  {
    assert items == [items[0]] + items[1..];
    var x := items[0];
    var next := if x.accepted || x.key in store then store[x.key := Wanted(ttl)] else store;
    forall key
      ensures key in AfterBatch(next, items[1..], ttl) <==> key in AfterBatch(store, items, ttl)
      ensures key in AfterBatch(store, items, ttl) ==>
        AfterBatch(next, items[1..], ttl)[key] == AfterBatch(store, items, ttl)[key]
    {
      AfterBatchKey(store, items, ttl, key);
      AfterBatchKey(next, items[1..], ttl, key);
    }
  }

  predicate Mentions(items: seq<Item>, key: string) { exists i :: 0 <= i < |items| && items[i].key == key }

  predicate Inserts(items: seq<Item>, key: string) {
    exists i :: 0 <= i < |items| && items[i].key == key && items[i].accepted
  }

  lemma AfterBatchKey(store: Store, items: seq<Item>, ttl: int, key: string)
    ensures key in AfterBatch(store, items, ttl) <==> key in store || Inserts(items, key)
    ensures key in AfterBatch(store, items, ttl) ==>
      AfterBatch(store, items, ttl)[key] == if Mentions(items, key) then Wanted(ttl) else store[key]
  {
  }

  lemma FirstOfBatch(store: Store, items: seq<Item>, ttl: int)
    requires items != []
    ensures var x := items[0];
      var next := if x.accepted || x.key in store then store[x.key := Wanted(ttl)] else store;
      var (rest, all) := (Transaction(next, RetimeAll(items[1..], ttl)), Transaction(store, RetimeAll(items, ttl)));
      all.0 == rest.0 && (Rejected in all.1 <==> !x.accepted || Rejected in rest.1)
  {
    var x := items[0];
    var next := if x.accepted || x.key in store then store[x.key := Wanted(ttl)] else store;
    RetimeInserted(store, x.key, ttl);
    RejectedInsert(store, x.key, ttl);
    QuietPair(store, Insert(x.key, x.accepted), Retime(x.key, ttl), RetimeAll(items[1..], ttl));
  }

  lemma {:induction false} BatchLeaves(store: Store, items: seq<Item>, ttl: int)
    ensures Transaction(store, RetimeAll(items, ttl)).0 == AfterBatch(store, items, ttl)
    ensures Rejected in Transaction(store, RetimeAll(items, ttl)).1 <==> exists x :: x in items && !x.accepted
    decreases |items|
  {
    if items == [] {
      NoBatch(store, ttl);
    } else {
      var x := items[0];
      FirstOfBatch(store, items, ttl);
      BatchLeaves(if x.accepted || x.key in store then store[x.key := Wanted(ttl)] else store, items[1..], ttl);
      AfterBatchFrom(store, items, ttl);
      assert items == [x] + items[1..];
    }
  }

  lemma NoBatch(store: Store, ttl: int)
    ensures AfterBatch(store, [], ttl) == store && Transaction(store, RetimeAll([], ttl)) == (store, [])
  {
  }

  /** The accepted keys and the keys of the batch that existed before have the expiry; no other key changes. */
  ghost predicate BatchRetimed(store: Store, after: Store, items: seq<Item>, expiry: Expiry) {
    forall key :: At(after, key) ==
      if Inserts(items, key) || (Mentions(items, key) && key in store) then Some(expiry) else At(store, key)
  }

  lemma BatchRetimes(store: Store, items: seq<Item>, ttl: int)
    ensures BatchRetimed(store, BatchWrite(store, items, ttl).0, items, Wanted(ttl))
    ensures BatchWrite(store, items, ttl).1 == Failed <==> exists x :: x in items && !x.accepted
  {
    BatchLeaves(store, items, ttl);
    forall key
      ensures At(AfterBatch(store, items, ttl), key) ==
        if Inserts(items, key) || (Mentions(items, key) && key in store) then Some(Wanted(ttl)) else At(store, key)
    {
      AfterBatchKey(store, items, ttl, key);
    }
  }

  /** A map or group batch fails exactly if Redis rejects one of its inserts; in any case the others are written,
      and every key of the batch that exists has the TTL of the body or else the configured one, the rejected
      ones too. */
  lemma BatchWithRejections(store: Store, items: seq<Item>, body: Option<int>, default: int)
    ensures var (after, response) := AnswerBatch(store, items, body, default);
      && (body.Some? && body.value > 0 ==> BatchRetimed(store, after, items, In(body.value)))
      && (body.Some? && body.value <= 0 ==> BatchRetimed(store, after, items, Never))
      && (body.None? && default > 0 ==> BatchRetimed(store, after, items, In(default)))
      && (body.None? && default <= 0 ==> BatchRetimed(store, after, items, Never))
      && response == if exists x :: x in items && !x.accepted then Failed else Stored
  {
    BatchRetimes(store, items, ResolveTtl(body, default));
  }

  lemma AllWantedFrom(store: Store, keys: seq<string>, ttl: int)
    requires keys != []
    ensures AllWanted(store[keys[0] := Wanted(ttl)], keys[1..], ttl) == AllWanted(store, keys, ttl)
  {
    assert keys == [keys[0]] + keys[1..];
  }

  lemma AllWantedOfNone(store: Store, ttl: int)
    ensures AllWanted(store, [], ttl) == store
  {
  }

  lemma {:induction false} BatchPuts(store: Store, keys: seq<string>, ttl: int)
    ensures Transaction(store, PutAll(keys, ttl)).0 == AllWanted(store, keys, ttl)
    decreases |keys|
  {
    if keys == [] {
      AllWantedOfNone(store, ttl);
    } else {
      BatchPuts(store[keys[0] := Wanted(ttl)], keys[1..], ttl);
      AllWantedFrom(store, keys, ttl);
      QuietFirst(store, Put(keys[0], Wanted(ttl)), PutAll(keys[1..], ttl));
    }
  }

  function AcceptAll(keys: seq<string>): seq<Item> {
    seq(|keys|, i requires 0 <= i < |keys| => Item(keys[i], true))
  }

  lemma AfterAccepted(store: Store, keys: seq<string>, ttl: int)
    ensures AfterBatch(store, AcceptAll(keys), ttl) == AllWanted(store, keys, ttl)
  {
    forall key
      ensures key in AfterBatch(store, AcceptAll(keys), ttl) <==> key in AllWanted(store, keys, ttl)
      ensures key in AllWanted(store, keys, ttl) ==>
        AfterBatch(store, AcceptAll(keys), ttl)[key] == AllWanted(store, keys, ttl)[key]
    {
      AfterBatchKey(store, AcceptAll(keys), ttl, key);
      if i :| 0 <= i < |keys| && keys[i] == key {
        assert AcceptAll(keys)[i] == Item(key, true);
      }
    }
  }

  /** All the keys exist with that expiry, and no other key has changed. */
  ghost predicate AllRetimed(store: Store, after: Store, keys: seq<string>, expiry: Expiry) {
    forall key :: At(after, key) == if key in keys then Some(expiry) else At(store, key)
  }

  lemma BatchSetsResolved(store: Store, keys: seq<string>, body: Option<int>, default: int)
    ensures var ttl := ResolveTtl(body, default);
      && AnswerBatch(store, AcceptAll(keys), body, default) == (AllWanted(store, keys, ttl), Stored)
      && AnswerPutAll(store, keys, body, default) == AllWanted(store, keys, ttl)
      && AllRetimed(store, AllWanted(store, keys, ttl), keys, Wanted(ttl))
  {
    BatchLeaves(store, AcceptAll(keys), ResolveTtl(body, default));
    AfterAccepted(store, keys, ResolveTtl(body, default));
    BatchPuts(store, keys, ResolveTtl(body, default));
  }

  /** Every key of an accepted batch gets the TTL of the body or else the configured one, and no other key
      changes. */
  lemma BatchSetsTtl(store: Store, keys: seq<string>, body: Option<int>, default: int)
    ensures var (after, response) := AnswerBatch(store, AcceptAll(keys), body, default);
      && response == Stored && AnswerPutAll(store, keys, body, default) == after
      && (body.Some? && body.value > 0 ==> AllRetimed(store, after, keys, In(body.value)))
      && (body.Some? && body.value <= 0 ==> AllRetimed(store, after, keys, Never))
      && (body.None? && default > 0 ==> AllRetimed(store, after, keys, In(default)))
      && (body.None? && default <= 0 ==> AllRetimed(store, after, keys, Never))
  {
    BatchSetsResolved(store, keys, body, default);
  }

  lemma QuietFirst(store: Store, first: Command, rest: seq<Command>)
    ensures var (after, replies) := Transaction(Execute(store, first).0, rest);
      Transaction(store, [first] + rest) == (after, [Execute(store, first).1] + replies)
  {
    assert ([first] + rest)[1..] == rest && Quiet(|rest| + 1)[1..] == Quiet(|rest|);
  }

  lemma QuietPair(store: Store, a: Command, b: Command, rest: seq<Command>)
    ensures var (s1, r1) := Execute(store, a);
      var (s2, r2) := Execute(s1, b);
      var (after, replies) := Transaction(s2, rest);
      Transaction(store, [a, b] + rest) == (after, [r1, r2] + replies)
  {
    assert [a, b] + rest == [a] + ([b] + rest);
    QuietFirst(store, a, [b] + rest);
    QuietFirst(Execute(store, a).0, b, rest);
    var (s1, r1) := Execute(store, a);
    var (s2, r2) := Execute(s1, b);
    assert [r1] + ([r2] + Transaction(s2, rest).1) == [r1, r2] + Transaction(s2, rest).1;
  }
}
