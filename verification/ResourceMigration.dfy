/** The resource loop of `migrate_service_data`: _migrate_service_data/resource_migration.py.

    One resource type of one upstream service is moved into the gateway.  The loop keeps asking upstream
    for the items still under its filter, creates or finds the gateway resource of each, and sends the
    upstream rows a bulk update.  The upstream service is an oracle: it chooses the page it serves, which
    updates of a request it applies, and how the request appears to end; the process may die at any request. */
module ResourceMigration {
  import opened Sets
  import opened Wrappers

  type AnsibleId = string
  type ServiceId = string
  type Key = string
  type Data = string

  // An upstream row.  `key` stands for the unique fields of its type and is its name for a user.
  datatype Item = Item(key: Key, ansibleId: AnsibleId, serviceId: ServiceId, partiallyMigrated: bool, data: Data)

  datatype GatewayRow = GatewayRow(ansibleId: AnsibleId, serviceId: ServiceId, data: Data)

  // The gateway table is keyed by its own unique constraint.  `touched` records which upstream rows
  // have ever had an update applied; the program does not read it.
  datatype World = World(upstream: map<nat, Item>, gateway: map<Key, GatewayRow>, touched: set<nat>)

  datatype Config = Config(gatewaySid: ServiceId, upstreamSid: ServiceId, systemName: Option<Key>, pageSize: nat)

  // An item of a bulk update names its row by the ansible_id the row had when its page was fetched.
  datatype Update = Update(target: AnsibleId, serviceId: ServiceId, ansibleId: Option<AnsibleId>, data: Option<Data>)

  datatype Answer =
    | Json            // 200 with the response object
    | JsonNotObject   // 200 with some other JSON value
    | NotJson         // 200 that does not parse
    | Status(code: int)
    | HttpError(response: Option<int>)
    | NetworkError
    | ProcessDied

  // The ids whose items upstream refuses in this request, for whatever reason, and how the request appears to end.
  datatype Reply = Reply(refused: set<AnsibleId>, answer: Answer)

  datatype Env = Env(page: (nat, set<nat>) -> seq<nat>, reply: nat -> Reply)

  // ---------- bulk sender ----------

  const MAX_BULK_CHUNK_SIZE: nat := 1000
  const MAX_TRANSIENT_RETRIES: nat := 3
  const TRANSIENT_STATUS_CODES := {502, 503, 504}

  datatype SendResult = Updated(count: nat) | Retry | Permanent | FellThrough | Died

  function NewId(u: Update): AnsibleId {
    u.ansibleId.GetOr(u.target)
  }

  function ApplyOne(row: Item, u: Update): Item {
    row.(serviceId := u.serviceId, ansibleId := NewId(u), data := u.data.GetOr(row.data))
  }

  function Holders(w: World, id: AnsibleId): set<nat> {
    set pk | pk in w.upstream && w.upstream[pk].ansibleId == id
  }

  /** Upstream can apply an item if some row has its target id and no other row its new one, because ansible_ids
      are unique there. */
  predicate Possible(w: World, u: Update) {
    Holders(w, u.target) != {} && Holders(w, NewId(u)) <= Holders(w, u.target)
  }

  predicate Accepted(w: World, u: Update, refused: set<AnsibleId>) {
    u.target !in refused && Possible(w, u)
  }

  function ApplyAt(w: World, u: Update, refused: set<AnsibleId>): World {
    if Accepted(w, u, refused)
    then w.(upstream := map pk | pk in w.upstream ::
                          if w.upstream[pk].ansibleId == u.target then ApplyOne(w.upstream[pk], u) else w.upstream[pk],
            touched := w.touched + Holders(w, u.target))
    else w
  }

  /** What upstream does with one request: the items are applied in order where they are possible and not
      refused; the rest fail. */
  function ServerApply(w: World, chunk: seq<Update>, refused: set<AnsibleId>): World
    decreases |chunk|
  {
    if chunk == [] then w else ServerApply(ApplyAt(w, chunk[0], refused), chunk[1..], refused)
  }

  /** The number an upstream service reports as `updated`. */
  function ServerCount(w: World, chunk: seq<Update>, refused: set<AnsibleId>): nat
    decreases |chunk|
  {
    if chunk == [] then 0
    else
      ServerCount(ApplyAt(w, chunk[0], refused), chunk[1..], refused) + if Accepted(w, chunk[0], refused) then 1 else 0
  }

  predicate SameId(rows: map<nat, Item>, p: nat, q: nat) {
    p in rows && q in rows && rows[p].ansibleId == rows[q].ansibleId
  }

  ghost predicate UniqueIds(w: World) {
    forall p, q :: SameId(w.upstream, p, q) ==> p == q
  }

  function RetryOrGiveUp(attempt: nat): SendResult {
    if attempt < MAX_TRANSIENT_RETRIES - 1 then Retry else Permanent
  }

  function Classify(answer: Answer, attempt: nat, count: nat): SendResult {
    match answer
    case Json => Updated(count)
    case JsonNotObject => Updated(0)
    case NotJson => RetryOrGiveUp(attempt)
    case Status(code) =>
      if code in TRANSIENT_STATUS_CODES then RetryOrGiveUp(attempt)
      else if code != 200 then Permanent else Updated(count)
    case HttpError(None) => Permanent
    case HttpError(Some(code)) => if code in TRANSIENT_STATUS_CODES then RetryOrGiveUp(attempt) else Permanent
    case NetworkError => RetryOrGiveUp(attempt)
    case ProcessDied => Died
  }

  function Pow2(n: nat): nat { if n == 0 then 1 else 2 * Pow2(n - 1) }

  datatype ChunkRun = ChunkRun(world: World, tick: nat, result: SendResult, tries: nat, slept: nat)

  function SendChunk(env: Env, w: World, tick: nat, chunk: seq<Update>, attempt: nat): ChunkRun
    decreases MAX_TRANSIENT_RETRIES - attempt
  {
    if attempt >= MAX_TRANSIENT_RETRIES then ChunkRun(w, tick, FellThrough, 0, 0)
    else
      var r := env.reply(tick);
      var w1 := ServerApply(w, chunk, r.refused);
      var result := Classify(r.answer, attempt, ServerCount(w, chunk, r.refused));
      if result.Retry? then
        var rest := SendChunk(env, w1, tick + 1, chunk, attempt + 1);
        rest.(tries := rest.tries + 1, slept := rest.slept + Pow2(attempt))
      else ChunkRun(w1, tick + 1, result, 1, 0)
  }

  /** From attempt `attempt` on, the retries still allowed are used at most once each, every retry but the
      last is followed by its back-off sleep, no sleep follows the last try, and a retry is never signalled
      on the last attempt, so the statement after the retry loop is not reached. */
  lemma {:induction false} RetriesAreBounded(env: Env, w: World, tick: nat, chunk: seq<Update>, attempt: nat)
    requires attempt < 3
    ensures var run := SendChunk(env, w, tick, chunk, attempt);
            && 1 <= run.tries <= 3 - attempt
            && run.slept == Pow2(attempt + run.tries - 1) - Pow2(attempt)
            && run.tick == tick + run.tries
            && !run.result.FellThrough? && !run.result.Retry?
    decreases MAX_TRANSIENT_RETRIES - attempt
  {
    var r := env.reply(tick);
    var w1 := ServerApply(w, chunk, r.refused);
    if Classify(r.answer, attempt, ServerCount(w, chunk, r.refused)).Retry? {
      RetriesAreBounded(env, w1, tick + 1, chunk, attempt + 1);
    }
  }

  /** Gateway errors, network errors and text that is not JSON are worth another try. */
  predicate Transient(answer: Answer) {
    || answer.NotJson? || answer.NetworkError?
    || answer in {Status(502), Status(503), Status(504)}
    || answer in {HttpError(Some(502)), HttpError(Some(503)), HttpError(Some(504))}
  }

  predicate Succeeds(answer: Answer) {
    answer.Json? || answer.JsonNotObject? || answer == Status(200)
  }

  /** A request is repeated exactly after a transient answer, while tries are left; its last answer decides: success
      is counted, a JSON value that is no object as nothing, the process may have died, and all else is final. */
  lemma {:induction false} AnswersDecide(env: Env, w: World, tick: nat, chunk: seq<Update>, attempt: nat)
    requires attempt < 3
    ensures var run := SendChunk(env, w, tick, chunk, attempt);
            run.tries >= 1 && run.tick == tick + run.tries && IsDecidedBy(env, tick, run.tick - 1, attempt, run.result)
    decreases 3 - attempt
  {
    var r := env.reply(tick);
    if Classify(r.answer, attempt, ServerCount(w, chunk, r.refused)).Retry? {
      AnswersDecide(env, ServerApply(w, chunk, r.refused), tick + 1, chunk, attempt + 1);
    }
  }

  /** The answers from the first request to the last one. */
  ghost predicate IsDecidedBy(env: Env, first: nat, last: nat, attempt: nat, result: SendResult) {
    var answer := env.reply(last).answer;
    && (forall t: nat :: first <= t < last ==> Transient(env.reply(t).answer))
    && (attempt + (last - first) + 1 < 3 ==> !Transient(answer))
    && (result.Updated? <==> Succeeds(answer))
    && (answer.JsonNotObject? ==> result == Updated(0))
    && (result.Died? <==> answer.ProcessDied?)
    && (!Succeeds(answer) && !answer.ProcessDied? ==> result == Permanent)
  }

  datatype BulkRun = BulkRun(world: World, tick: nat, result: SendResult, chunks: seq<seq<Update>>)

  function FirstChunk(items: seq<Update>): seq<Update> {
    if |items| <= MAX_BULK_CHUNK_SIZE then items else items[..MAX_BULK_CHUNK_SIZE]
  }

  function SendBulk(env: Env, w: World, tick: nat, items: seq<Update>): BulkRun
    decreases |items|
  {
    if items == [] then BulkRun(w, tick, Updated(0), [])
    else
      var chunk := FirstChunk(items);
      var run := SendChunk(env, w, tick, chunk, 0);
      match run.result
      case Updated(n) =>
        var rest := SendBulk(env, run.world, run.tick, items[|chunk|..]);
        BulkRun(rest.world, rest.tick, if rest.result.Updated? then Updated(n + rest.result.count)
            else rest.result, [chunk] + rest.chunks)
      case Died => BulkRun(run.world, run.tick, Died, [chunk])
      case _ => BulkRun(run.world, run.tick, Permanent, [chunk])
  }

  function Concat<T>(parts: seq<seq<T>>): seq<T> {
    if parts == [] then [] else parts[0] + Concat(parts[1..])
  }

  /** The chunks sent are consecutive pieces of the input from its start, of size 1 to 1000; if none fails they
      are the whole input. */
  lemma {:induction false} ChunksCoverTheInput(env: Env, w: World, tick: nat, items: seq<Update>)
    ensures var run := SendBulk(env, w, tick, items);
            && (forall c :: c in run.chunks ==> 1 <= |c| <= 1000)
            && Concat(run.chunks) <= items
            && (run.result.Updated? ==> Concat(run.chunks) == items)
            && (run.result.Updated? || run.result.Permanent? || run.result.Died?)
    decreases |items|
  {
    if items != [] {
      var chunk := FirstChunk(items);
      var run := SendChunk(env, w, tick, chunk, 0);
      assert items == chunk + items[|chunk|..];
      if run.result.Updated? {
        ChunksCoverTheInput(env, run.world, run.tick, items[|chunk|..]);
        var rest := SendBulk(env, run.world, run.tick, items[|chunk|..]);
        assert ([chunk] + rest.chunks)[1..] == rest.chunks;
      } else {
        assert Concat([chunk]) == chunk + Concat<Update>([]);
      }
    }
  }

  // ---------- one page ----------

  datatype Reconciled = Reconciled(create: bool, update: Update)

  /** Case 1 copies the service id of a gateway row that already has the item's ansible_id; case 2 then
      points the upstream row at the gateway row in every case where one exists. */
  function Reconcile(cfg: Config, gateway: map<Key, GatewayRow>, item: Item): Reconciled {
    if item.key !in gateway then Reconciled(true, Update(item.ansibleId, cfg.gatewaySid, None, None))
    else
      var g := gateway[item.key];
      var sid := if g.ansibleId == item.ansibleId then g.serviceId else cfg.gatewaySid;
      Reconciled(false, Update(item.ansibleId, sid, Some(g.ansibleId), Some(g.data)))
  }

  function Updates(cfg: Config, w: World, page: seq<nat>): seq<Update>
    requires forall pk :: pk in page ==> pk in w.upstream
  {
    if page == [] then []
    else [Reconcile(cfg, w.gateway, w.upstream[page[0]]).update] + Updates(cfg, w, page[1..])
  }

  function Creates(cfg: Config, w: World, page: seq<nat>): seq<Item>
    requires forall pk :: pk in page ==> pk in w.upstream
  {
    if page == [] then []
    else
      var item := w.upstream[page[0]];
      (if item.key !in w.gateway then [item] else []) + Creates(cfg, w, page[1..])
  }

  predicate AnsibleIdUsed(gateway: map<Key, GatewayRow>, id: AnsibleId) {
    exists k :: k in gateway && gateway[k].ansibleId == id
  }

  /** The local transaction: all the new rows, or none when a unique constraint is violated. */
  function CreateAll(cfg: Config, gateway: map<Key, GatewayRow>, items: seq<Item>): Option<map<Key, GatewayRow>>
    decreases |items|
  {
    if items == [] then Some(gateway)
    else
      var item := items[0];
      if item.key in gateway || AnsibleIdUsed(gateway, item.ansibleId) then None
      else CreateAll(cfg, gateway[item.key := GatewayRow(item.ansibleId, cfg.gatewaySid, item.data)], items[1..])
  }

  datatype PageResult = Sent(count: nat) | CreateConflict | SendFailed | PageDied

  datatype PageRun = PageRun(world: World, tick: nat, result: PageResult)

  function ProcessPage(env: Env, cfg: Config, w: World, tick: nat, page: seq<nat>): PageRun
    requires forall pk :: pk in page ==> pk in w.upstream
  {
    match CreateAll(cfg, w.gateway, Creates(cfg, w, page))
    case None => PageRun(w, tick, CreateConflict)
    case Some(gateway) =>
      var run := SendBulk(env, w.(gateway := gateway), tick, Updates(cfg, w, page));
      PageRun(run.world, run.tick,
              match run.result
              case Updated(n) => Sent(n)
              case Died => PageDied
              case _ => SendFailed)
  }

  // ---------- the loop ----------

  const MAX_ZERO_PROGRESS_PAGES: nat := 3

  /** Items the list call returns: this service's, not partially migrated. */
  function Listed(cfg: Config, w: World): set<nat> {
    set pk | pk in w.upstream && w.upstream[pk].serviceId == cfg.upstreamSid && !w.upstream[pk].partiallyMigrated
  }

  predicate IsSystem(cfg: Config, w: World, pk: nat)
    requires pk in w.upstream
  {
    cfg.systemName == Some(w.upstream[pk].key)
  }

  function Migratable(cfg: Config, w: World): set<nat> {
    set pk | pk in Listed(cfg, w) && !IsSystem(cfg, w, pk)
  }

  function WithoutSystem(cfg: Config, w: World, page: seq<nat>): (r: seq<nat>)
    requires forall pk :: pk in page ==> pk in w.upstream
    ensures forall pk :: pk in r <==> pk in page && !IsSystem(cfg, w, pk)
  {
    if page == [] then []
    else (if IsSystem(cfg, w, page[0]) then [] else [page[0]]) + WithoutSystem(cfg, w, page[1..])
  }

  predicate IsPageOf(page: seq<nat>, listed: set<nat>, size: nat) {
    && (forall pk :: pk in page ==> pk in listed)
    && (forall i, j :: 0 <= i < j < |page| ==> page[i] != page[j])
    && |page| == if |listed| <= size then |listed| else size
  }

  /** The list call serves some page of the listed items, in an order of its own. */
  ghost predicate ServesPages(env: Env, cfg: Config) {
    forall tick, listed :: IsPageOf(env.page(tick, listed), listed, cfg.pageSize)
  }

  datatype Status = Running | Finished | Stalled | Failed | Conflict | Crashed

  datatype Loop = Loop(world: World, tick: nat, strikes: nat, fetches: nat, status: Status)

  function Start(w: World): Loop { Loop(w, 0, 0, 0, Running) }

  /** One turn of the `while True` loop. */
  function Turn(env: Env, cfg: Config, s: Loop): Loop
    requires IsPageOf(env.page(s.tick, Listed(cfg, s.world)), Listed(cfg, s.world), cfg.pageSize)
  {
    var results := WithoutSystem(cfg, s.world, env.page(s.tick, Listed(cfg, s.world)));
    if results == [] then s.(status := Finished, fetches := s.fetches + 1)
    else
      var run := ProcessPage(env, cfg, s.world, s.tick, results);
      var s1 := s.(world := run.world, tick := run.tick, fetches := s.fetches + 1);
      match run.result
      case CreateConflict => s1.(status := Conflict)
      case SendFailed => s1.(status := Failed)
      case PageDied => s1.(status := Crashed)
      case Sent(n) =>
        if n == 0 then
          s1.(strikes := s.strikes + 1,
              status := if s.strikes + 1 >= MAX_ZERO_PROGRESS_PAGES then Stalled else Running)
        else s1.(strikes := 0)
  }

  /** At most `turns` turns of the loop. */
  ghost function Iterate(env: Env, cfg: Config, s: Loop, turns: nat): Loop
    requires ServesPages(env, cfg)
    decreases turns
  {
    if turns == 0 || !s.status.Running? then s else Iterate(env, cfg, Turn(env, cfg, s), turns - 1)
  }

  // ---------- agreement between the two sides ----------

  /** The upstream row has the ansible_id and the data of the gateway row with its key. */
  ghost predicate Agrees(w: World, pk: nat) {
    && pk in w.upstream
    && w.upstream[pk].key in w.gateway
    && w.gateway[w.upstream[pk].key].ansibleId == w.upstream[pk].ansibleId
    && w.gateway[w.upstream[pk].key].data == w.upstream[pk].data
  }

  ghost predicate Agreement(w: World) {
    forall pk :: pk in w.touched ==> Agrees(w, pk)
  }

  /** The row the update was made for: it still has the target id, or it already has the id of the gateway row
      with its key, which is the one the update would give it; and the update would leave it with that row's data. */
  ghost predicate IsRowOf(w: World, u: Update, pk: nat) {
    && pk in w.upstream
    && w.upstream[pk].key in w.gateway
    && w.gateway[w.upstream[pk].key].ansibleId == NewId(u)
    && (w.upstream[pk].ansibleId == u.target || w.upstream[pk].ansibleId == NewId(u))
    && w.gateway[w.upstream[pk].key].data == u.data.GetOr(w.upstream[pk].data)
  }

  /** Every update was made for a row of the page. */
  ghost predicate Pending(w: World, us: seq<Update>, page: seq<nat>) {
    UniqueIds(w) && forall u :: u in us ==> MadeFor(w, u, page)
  }

  ghost predicate MadeFor(w: World, u: Update, page: seq<nat>) {
    exists pk :: pk in page && IsRowOf(w, u, pk)
  }

  /** P survives every single update of us that upstream may apply. */
  ghost predicate Kept(P: World -> bool, us: seq<Update>) {
    forall w, u, refused :: P(w) && u in us ==> P(ApplyAt(w, u, refused))
  }

  lemma {:induction false} ApplyKeeps(P: World -> bool, us: seq<Update>, w: World, chunk: seq<Update>,
      refused: set<AnsibleId>)
    requires Kept(P, us) && P(w) && forall u :: u in chunk ==> u in us
    ensures P(ServerApply(w, chunk, refused))
    decreases |chunk|
  {
    if chunk != [] {
      assert P(ApplyAt(w, chunk[0], refused));
      ApplyKeeps(P, us, ApplyAt(w, chunk[0], refused), chunk[1..], refused);
    }
  }

  lemma {:induction false} ChunkKeeps(P: World -> bool, us: seq<Update>, env: Env, w: World, tick: nat,
      chunk: seq<Update>, attempt: nat)
    requires Kept(P, us) && P(w) && forall u :: u in chunk ==> u in us
    ensures P(SendChunk(env, w, tick, chunk, attempt).world)
    decreases MAX_TRANSIENT_RETRIES - attempt
  {
    if attempt < MAX_TRANSIENT_RETRIES {
      var r := env.reply(tick);
      ApplyKeeps(P, us, w, chunk, r.refused);
      ChunkKeeps(P, us, env, ServerApply(w, chunk, r.refused), tick + 1, chunk, attempt + 1);
    }
  }

  /** Then P survives the whole bulk update, whichever requests fail, repeat or kill the process. */
  lemma {:induction false} BulkKeeps(P: World -> bool, us: seq<Update>, env: Env, w: World, tick: nat,
      items: seq<Update>)
    requires Kept(P, us) && P(w) && forall u :: u in items ==> u in us
    ensures P(SendBulk(env, w, tick, items).world)
    decreases |items|
  {
    if items != [] {
      var chunk := FirstChunk(items);
      ChunkKeeps(P, us, env, w, tick, chunk, 0);
      var run := SendChunk(env, w, tick, chunk, 0);
      BulkKeeps(P, us, env, run.world, run.tick, items[|chunk|..]);
    }
  }

  /** An update can only reach the row it was made for: if that row has moved on to its new id, whichever row has
      the target id now cannot take the new one. */
  lemma HitsOwnRow(w: World, u: Update, pk: nat)
    requires UniqueIds(w) && IsRowOf(w, u, pk) && Possible(w, u)
    ensures Holders(w, u.target) == {pk}
  {
    assert w.upstream[pk].ansibleId == NewId(u) ==> pk in Holders(w, NewId(u));
    forall q ensures q in Holders(w, u.target) <==> q in {pk} {
      assert q in Holders(w, u.target) && pk in Holders(w, u.target) ==> SameId(w.upstream, q, pk);
    }
    SameElements(Holders(w, u.target), {pk});
  }

  lemma OneUpdateLands(w: World, u: Update, refused: set<AnsibleId>, pk: nat)
    requires UniqueIds(w) && IsRowOf(w, u, pk) && Accepted(w, u, refused)
    ensures var w1 := ApplyAt(w, u, refused);
            && w1 == w.(upstream := w.upstream[pk := ApplyOne(w.upstream[pk], u)], touched := w.touched + {pk})
            && UniqueIds(w1)
            && (forall t, q :: IsRowOf(w, t, q) ==> IsRowOf(w1, t, q))
  {
    HitsOwnRow(w, u, pk);
    var w1 := ApplyAt(w, u, refused);
    assert w1.upstream == w.upstream[pk := ApplyOne(w.upstream[pk], u)] by {
      forall q | q in w.upstream ensures w.upstream[q].ansibleId == u.target <==> q == pk {
        assert q in Holders(w, u.target) <==> q in {pk};
      }
    }
    forall q | q in w.upstream && q != pk ensures w.upstream[q].ansibleId != NewId(u) {
      assert q in Holders(w, NewId(u)) ==> q in {pk};
    }
    forall p, q | SameId(w1.upstream, p, q) ensures p == q {
      assert p != pk && q != pk ==> SameId(w.upstream, p, q);
    }
  }

  lemma OneUpdateKeepsPending(w: World, u: Update, refused: set<AnsibleId>, us: seq<Update>, page: seq<nat>)
    requires Pending(w, us, page) && MadeFor(w, u, page)
    ensures Pending(ApplyAt(w, u, refused), us, page)
  {
    if Accepted(w, u, refused) {
      var pk :| pk in page && IsRowOf(w, u, pk);
      OneUpdateLands(w, u, refused, pk);
      forall t | t in us ensures MadeFor(ApplyAt(w, u, refused), t, page) {
        var q :| q in page && IsRowOf(w, t, q);
        assert IsRowOf(ApplyAt(w, u, refused), t, q);
      }
    }
  }

  lemma OneUpdateKeepsAgreement(w: World, u: Update, refused: set<AnsibleId>, page: seq<nat>)
    requires UniqueIds(w) && Agreement(w) && MadeFor(w, u, page)
    ensures Agreement(ApplyAt(w, u, refused))
  {
    if Accepted(w, u, refused) {
      var pk :| pk in page && IsRowOf(w, u, pk);
      OneUpdateLands(w, u, refused, pk);
      var w1 := ApplyAt(w, u, refused);
      forall q | q in w1.touched ensures Agrees(w1, q) {
        assert q == pk || Agrees(w, q);
      }
    }
  }

  ghost predicate Sending(w: World, v: World, us: seq<Update>, page: seq<nat>) {
    Agreement(v) && Pending(v, us, page) && v.gateway == w.gateway && v.upstream.Keys == w.upstream.Keys
  }

  lemma OneUpdateKeepsSending(w: World, v: World, u: Update, refused: set<AnsibleId>, us: seq<Update>, page: seq<nat>)
    requires Sending(w, v, us, page) && u in us
    ensures Sending(w, ApplyAt(v, u, refused), us, page)
  {
    assert MadeFor(v, u, page);
    OneUpdateKeepsPending(v, u, refused, us, page);
    OneUpdateKeepsAgreement(v, u, refused, page);
  }

  lemma BulkKeepsAgreement(env: Env, w: World, tick: nat, us: seq<Update>, page: seq<nat>)
    requires Agreement(w) && Pending(w, us, page)
    ensures var w1 := SendBulk(env, w, tick, us).world;
            Agreement(w1) && UniqueIds(w1) && w1.gateway == w.gateway && w1.upstream.Keys == w.upstream.Keys
  {
    var P := (v: World) => Sending(w, v, us, page);
    forall v, u, refused | P(v) && u in us ensures P(ApplyAt(v, u, refused)) {
      OneUpdateKeepsSending(w, v, u, refused, us, page);
    }
    BulkKeeps(P, us, env, w, tick, us);
  }

  lemma {:induction false} CreateAllAdds(cfg: Config, gateway: map<Key, GatewayRow>, items: seq<Item>)
    requires CreateAll(cfg, gateway, items).Some?
    ensures var after := CreateAll(cfg, gateway, items).value;
            && gateway.Keys <= after.Keys
            && (forall k :: k in gateway ==> after[k] == gateway[k])
            && (forall item :: item in items ==>
               item.key in after && after[item.key] == GatewayRow(item.ansibleId, cfg.gatewaySid, item.data))
            && (forall k :: k in after && k !in gateway ==> after[k].serviceId == cfg.gatewaySid)
    decreases |items|
  {
    if items != [] {
      var item := items[0];
      CreateAllAdds(cfg, gateway[item.key := GatewayRow(item.ansibleId, cfg.gatewaySid, item.data)], items[1..]);
    }
  }

  lemma {:induction false} CreatesHasTheNew(cfg: Config, w: World, page: seq<nat>, pk: nat)
    requires forall p :: p in page ==> p in w.upstream
    requires pk in page && w.upstream[pk].key !in w.gateway
    ensures w.upstream[pk] in Creates(cfg, w, page)
    decreases |page|
  {
    if pk != page[0] {
      CreatesHasTheNew(cfg, w, page[1..], pk);
    }
  }

  lemma {:induction false} UpdatesAreReconciled(cfg: Config, w: World, page: seq<nat>, u: Update) returns (pk: nat)
    requires forall p :: p in page ==> p in w.upstream
    requires u in Updates(cfg, w, page)
    ensures pk in page && u == Reconcile(cfg, w.gateway, w.upstream[pk]).update
    decreases |page|
  {
    if u == Updates(cfg, w, page)[0] {
      pk := page[0];
    } else {
      pk := UpdatesAreReconciled(cfg, w, page[1..], u);
    }
  }

  lemma PageUpdatesArePending(cfg: Config, w: World, page: seq<nat>, gateway: map<Key, GatewayRow>)
    requires UniqueIds(w) && forall p :: p in page ==> p in w.upstream
    requires CreateAll(cfg, w.gateway, Creates(cfg, w, page)) == Some(gateway)
    ensures Pending(w.(gateway := gateway), Updates(cfg, w, page), page)
  {
    CreateAllAdds(cfg, w.gateway, Creates(cfg, w, page));
    forall u | u in Updates(cfg, w, page) ensures MadeFor(w.(gateway := gateway), u, page) {
      var pk := UpdatesAreReconciled(cfg, w, page, u);
      if w.upstream[pk].key !in w.gateway {
        CreatesHasTheNew(cfg, w, page, pk);
      }
      assert IsRowOf(w.(gateway := gateway), u, pk);
    }
  }

  /** A page keeps agreement however its creates, its requests or the process end, and never rewrites
      a gateway row. */
  lemma PageKeepsAgreement(env: Env, cfg: Config, w: World, tick: nat, page: seq<nat>)
    requires Agreement(w) && UniqueIds(w) && forall p :: p in page ==> p in w.upstream
    ensures var w1 := ProcessPage(env, cfg, w, tick, page).world;
            && Agreement(w1) && UniqueIds(w1) && w1.upstream.Keys == w.upstream.Keys
            && (forall k :: k in w.gateway ==> k in w1.gateway && w1.gateway[k] == w.gateway[k])
            && (forall k :: k in w1.gateway && k !in w.gateway ==> w1.gateway[k].serviceId == cfg.gatewaySid)
  {
    var made := CreateAll(cfg, w.gateway, Creates(cfg, w, page));
    if made.Some? {
      CreateAllAdds(cfg, w.gateway, Creates(cfg, w, page));
      PageUpdatesArePending(cfg, w, page, made.value);
      BulkKeepsAgreement(env, w.(gateway := made.value), tick, Updates(cfg, w, page), page);
    }
  }

  /** Gateway rows are never rewritten, and new ones belong to the gateway. */
  ghost predicate Extends(cfg: Config, w: World, w1: World) {
    && w1.upstream.Keys == w.upstream.Keys
    && (forall k :: k in w.gateway ==> k in w1.gateway && w1.gateway[k] == w.gateway[k])
    && (forall k :: k in w1.gateway && k !in w.gateway ==> w1.gateway[k].serviceId == cfg.gatewaySid)
  }

  lemma TurnKeepsAgreement(env: Env, cfg: Config, s: Loop)
    requires ServesPages(env, cfg) && Agreement(s.world) && UniqueIds(s.world)
    ensures var w1 := Turn(env, cfg, s).world; Agreement(w1) && UniqueIds(w1) && Extends(cfg, s.world, w1)
  {
    var page := env.page(s.tick, Listed(cfg, s.world));
    assert IsPageOf(page, Listed(cfg, s.world), cfg.pageSize);
    PageKeepsAgreement(env, cfg, s.world, s.tick, WithoutSystem(cfg, s.world, page));
  }

  /** Every upstream row that was ever updated has the ansible_id of the gateway row with its key, after
      any number of turns and whatever failed or crashed on the way. */
  lemma {:induction false} LoopKeepsAgreement(env: Env, cfg: Config, s: Loop, turns: nat)
    requires ServesPages(env, cfg) && Agreement(s.world) && UniqueIds(s.world)
    ensures var w1 := Iterate(env, cfg, s, turns).world; Agreement(w1) && UniqueIds(w1) && Extends(cfg, s.world, w1)
    decreases turns
  {
    if turns > 0 && s.status.Running? {
      TurnKeepsAgreement(env, cfg, s);
      var s1 := Turn(env, cfg, s);
      LoopKeepsAgreement(env, cfg, s1, turns - 1);
      ExtendsTransitive(cfg, s.world, s1.world, Iterate(env, cfg, s1, turns - 1).world);
    }
  }

  lemma ExtendsTransitive(cfg: Config, a: World, b: World, c: World)
    requires Extends(cfg, a, b) && Extends(cfg, b, c)
    ensures Extends(cfg, a, c)
  {
  }

  /** One execution of the command: it is cut off after some number of turns, or ends by itself. */
  datatype Execution = Execution(env: Env, cfg: Config, turns: nat)

  ghost function AfterExecutions(w: World, runs: seq<Execution>): World
    requires forall run :: run in runs ==> ServesPages(run.env, run.cfg)
  {
    if runs == [] then w
    else
      var last := runs[|runs| - 1];
      Iterate(last.env, last.cfg, Start(AfterExecutions(w, runs[..|runs| - 1])), last.turns).world
  }

  /** The same over any number of crashed, failed and repeated executions, starting from rows nobody has
      updated yet. */
  lemma {:induction false} ExecutionsKeepAgreement(w: World, runs: seq<Execution>)
    requires w.touched == {} && UniqueIds(w) && forall run :: run in runs ==> ServesPages(run.env, run.cfg)
    ensures Agreement(AfterExecutions(w, runs)) && UniqueIds(AfterExecutions(w, runs))
  {
    if runs != [] {
      var last, before := runs[|runs| - 1], runs[..|runs| - 1];
      assert last in runs;
      ExecutionsKeepAgreement(w, before);
      LoopKeepsAgreement(last.env, last.cfg, Start(AfterExecutions(w, before)), last.turns);
    }
  }

  // ---------- what a merge makes of a row ----------

  /** The service id an item ends with: that of the gateway row which already had its ansible_id, or the gateway's. */
  function MergedServiceId(cfg: Config, before: World, pk: nat): ServiceId
    requires pk in before.upstream
  {
    var item := before.upstream[pk];
    if item.key in before.gateway && before.gateway[item.key].ansibleId == item.ansibleId
    then before.gateway[item.key].serviceId else cfg.gatewaySid
  }

  /** The row was listed, and now has the ansible_id and data of the gateway row with its key. */
  ghost predicate Merged(cfg: Config, before: World, w: World, pk: nat)
    requires pk in before.upstream && pk in w.upstream
  {
    var item := before.upstream[pk];
    && item.serviceId == cfg.upstreamSid && item.key in w.gateway
    && w.upstream[pk]
       == item.(ansibleId := w.gateway[item.key].ansibleId, serviceId := MergedServiceId(cfg, before, pk),
                data := w.gateway[item.key].data)
  }

  /** The gateway row is a copy of an item, under the gateway's own service id. */
  ghost predicate CopyOf(cfg: Config, before: World, row: GatewayRow, key: Key) {
    exists pk :: pk in before.upstream && before.upstream[pk].key == key
                 && row == GatewayRow(before.upstream[pk].ansibleId, cfg.gatewaySid, before.upstream[pk].data)
  }

  /** How the two sides may change: old gateway rows stay, new ones are copies of items, and every upstream row is
      as it was or merged. */
  ghost predicate MergedSince(cfg: Config, before: World, w: World) {
    && w.upstream.Keys == before.upstream.Keys
    && (forall k :: k in before.gateway ==> k in w.gateway && w.gateway[k] == before.gateway[k])
    && (forall k :: k in w.gateway && k !in before.gateway ==> CopyOf(cfg, before, w.gateway[k], k))
    && (forall pk :: pk in before.upstream ==> w.upstream[pk] == before.upstream[pk] || Merged(cfg, before, w, pk))
  }

  /** While the updates of a page are sent. */
  ghost predicate Merging(cfg: Config, w: World, gateway: map<Key, GatewayRow>, v: World) {
    && UniqueIds(v) && v.gateway == gateway && v.upstream.Keys == w.upstream.Keys
    && forall pk :: pk in w.upstream ==> v.upstream[pk] == w.upstream[pk] || Merged(cfg, w, v, pk)
  }

  ghost predicate AllFromUpstream(cfg: Config, w: World, page: seq<nat>) {
    forall pk :: pk in page ==> pk in w.upstream && w.upstream[pk].serviceId == cfg.upstreamSid
  }

  /** What the gateway holds for an item of a page once its new rows are created. */
  ghost predicate Provided(cfg: Config, w: World, gateway: map<Key, GatewayRow>, pk: nat)
    requires pk in w.upstream
  {
    var item := w.upstream[pk];
    && item.key in gateway
    && gateway[item.key] == if item.key in w.gateway then w.gateway[item.key]
                            else GatewayRow(item.ansibleId, cfg.gatewaySid, item.data)
  }

  lemma OneUpdateMerges(cfg: Config, w: World, gateway: map<Key, GatewayRow>, v: World, u: Update,
      refused: set<AnsibleId>, pk: nat)
    requires Merging(cfg, w, gateway, v) && pk in w.upstream && w.upstream[pk].serviceId == cfg.upstreamSid
    requires u == Reconcile(cfg, w.gateway, w.upstream[pk]).update && Provided(cfg, w, gateway, pk)
    ensures Merging(cfg, w, gateway, ApplyAt(v, u, refused))
  {
    if Accepted(v, u, refused) {
      assert IsRowOf(v, u, pk);
      OneUpdateLands(v, u, refused, pk);
      assert Merged(cfg, w, ApplyAt(v, u, refused), pk);
    }
  }

  lemma CreatedIsProvided(cfg: Config, w: World, page: seq<nat>, gateway: map<Key, GatewayRow>)
    requires forall pk :: pk in page ==> pk in w.upstream
    requires CreateAll(cfg, w.gateway, Creates(cfg, w, page)) == Some(gateway)
    ensures forall pk :: pk in page ==> Provided(cfg, w, gateway, pk)
    ensures forall k :: k in w.gateway ==> k in gateway && gateway[k] == w.gateway[k]
    ensures forall k :: k in gateway && k !in w.gateway ==> CopyOf(cfg, w, gateway[k], k)
  {
    CreateAllAdds(cfg, w.gateway, Creates(cfg, w, page));
    forall pk | pk in page ensures Provided(cfg, w, gateway, pk) {
      if w.upstream[pk].key !in w.gateway {
        CreatesHasTheNew(cfg, w, page, pk);
      }
    }
    forall k | k in gateway && k !in w.gateway ensures CopyOf(cfg, w, gateway[k], k) {
      var item := CreateAllOnly(cfg, w.gateway, Creates(cfg, w, page), k);
      var pk := CreatesAreNew(cfg, w, page, item);
    }
  }

  /** One page, however its creates, its requests or the process end. */
  lemma PageMerges(env: Env, cfg: Config, w: World, tick: nat, page: seq<nat>)
    requires UniqueIds(w) && AllFromUpstream(cfg, w, page)
    ensures var w1 := ProcessPage(env, cfg, w, tick, page).world;
            MergedSince(cfg, w, w1) && UniqueIds(w1)
  {
    var made := CreateAll(cfg, w.gateway, Creates(cfg, w, page));
    if made.Some? {
      var gateway, us := made.value, Updates(cfg, w, page);
      CreatedIsProvided(cfg, w, page, gateway);
      var P := (v: World) => Merging(cfg, w, gateway, v);
      forall v, u, refused | P(v) && u in us ensures P(ApplyAt(v, u, refused)) {
        var pk := UpdatesAreReconciled(cfg, w, page, u);
        OneUpdateMerges(cfg, w, gateway, v, u, refused, pk);
      }
      BulkKeeps(P, us, env, w.(gateway := gateway), tick, us);
    }
  }

  lemma MergedTransitive(cfg: Config, a: World, b: World, c: World)
    requires cfg.gatewaySid != cfg.upstreamSid && MergedSince(cfg, a, b) && MergedSince(cfg, b, c)
    ensures MergedSince(cfg, a, c)
  {
    forall k | k in c.gateway && k !in a.gateway ensures CopyOf(cfg, a, c.gateway[k], k) {
      if k in b.gateway {
        assert CopyOf(cfg, a, b.gateway[k], k);
      } else {
        var pk :| pk in b.upstream && b.upstream[pk].key == k
          && c.gateway[k] == GatewayRow(b.upstream[pk].ansibleId, cfg.gatewaySid, b.upstream[pk].data);
        assert a.upstream[pk] == b.upstream[pk];
      }
    }
    forall pk | pk in a.upstream ensures c.upstream[pk] == a.upstream[pk] || Merged(cfg, a, c, pk) {
      MergedRowTransitive(cfg, a, b, c, pk);
    }
  }

  lemma MergedRowTransitive(cfg: Config, a: World, b: World, c: World, pk: nat)
    requires cfg.gatewaySid != cfg.upstreamSid && MergedSince(cfg, a, b) && MergedSince(cfg, b, c)
    requires pk in a.upstream
    ensures c.upstream[pk] == a.upstream[pk] || Merged(cfg, a, c, pk)
  {
    var key := a.upstream[pk].key;
    assert key in b.gateway && key !in a.gateway ==> CopyOf(cfg, a, b.gateway[key], key);
  }

  lemma TurnMerges(env: Env, cfg: Config, s: Loop)
    requires ServesPages(env, cfg) && UniqueIds(s.world)
    ensures MergedSince(cfg, s.world, Turn(env, cfg, s).world) && UniqueIds(Turn(env, cfg, s).world)
  {
    var page := env.page(s.tick, Listed(cfg, s.world));
    assert IsPageOf(page, Listed(cfg, s.world), cfg.pageSize);
    PageMerges(env, cfg, s.world, s.tick, WithoutSystem(cfg, s.world, page));
  }

  /** Any number of turns: the gateway's rows stay, its new rows are copies of items, and every upstream row is either
      as it was or has exactly the fields the merge should give it. */
  lemma {:induction false} LoopMerges(env: Env, cfg: Config, s: Loop, turns: nat)
    requires ServesPages(env, cfg) && UniqueIds(s.world) && cfg.gatewaySid != cfg.upstreamSid
    ensures var w1 := Iterate(env, cfg, s, turns).world; MergedSince(cfg, s.world, w1) && UniqueIds(w1)
    decreases turns
  {
    if turns > 0 && s.status.Running? {
      TurnMerges(env, cfg, s);
      var s1 := Turn(env, cfg, s);
      LoopMerges(env, cfg, s1, turns - 1);
      MergedTransitive(cfg, s.world, s1.world, Iterate(env, cfg, s1, turns - 1).world);
    }
  }

  /** The same over crashed, failed and repeated executions against one service. */
  lemma {:induction false} ExecutionsMerge(cfg: Config, w: World, runs: seq<Execution>)
    requires UniqueIds(w) && cfg.gatewaySid != cfg.upstreamSid
    requires forall run :: run in runs ==> ServesPages(run.env, run.cfg) && run.cfg.gatewaySid == cfg.gatewaySid
                                           && run.cfg.upstreamSid == cfg.upstreamSid
    ensures MergedSince(cfg, w, AfterExecutions(w, runs)) && UniqueIds(AfterExecutions(w, runs))
  {
    if runs != [] {
      var last, before := runs[|runs| - 1], runs[..|runs| - 1];
      assert last in runs;
      ExecutionsMerge(cfg, w, before);
      var w1 := AfterExecutions(w, before);
      LoopMerges(last.env, last.cfg, Start(w1), last.turns);
      SameIds(cfg, last.cfg, w1, AfterExecutions(w, runs));
      MergedTransitive(cfg, w, w1, AfterExecutions(w, runs));
    }
  }

  lemma SameIds(cfg: Config, other: Config, a: World, b: World)
    requires cfg.gatewaySid == other.gatewaySid && cfg.upstreamSid == other.upstreamSid && MergedSince(other, a, b)
    ensures MergedSince(cfg, a, b)
  {
    forall k | k in b.gateway && k !in a.gateway ensures CopyOf(cfg, a, b.gateway[k], k) {
      assert CopyOf(other, a, b.gateway[k], k);
    }
  }

  // ---------- progress and termination ----------

  /** Case 1 would copy the upstream service id back onto this item, so no update takes it off the list. */
  predicate Stuck(cfg: Config, w: World, pk: nat)
    requires pk in w.upstream
  {
    var item := w.upstream[pk];
    item.key in w.gateway && w.gateway[item.key].ansibleId == item.ansibleId
        && w.gateway[item.key].serviceId == cfg.upstreamSid
  }

  ghost predicate NoneStuck(cfg: Config, w: World) {
    cfg.gatewaySid != cfg.upstreamSid && forall pk :: pk in Migratable(cfg, w) ==> !Stuck(cfg, w, pk)
  }

  ghost predicate AllMove(cfg: Config, us: seq<Update>) {
    forall u :: u in us ==> u.serviceId != cfg.upstreamSid
  }

  /** How a world may change while updates that move their rows are applied: each upstream row is
      unchanged, or was touched and is no longer listed. */
  ghost predicate Shrinks(cfg: Config, w: World, w1: World) {
    && w1.upstream.Keys == w.upstream.Keys
    && w.touched <= w1.touched
    && forall pk :: pk in w.upstream ==>
         && w1.upstream[pk].key == w.upstream[pk].key
         && (w1.upstream[pk] == w.upstream[pk] || (pk in w1.touched && w1.upstream[pk].serviceId != cfg.upstreamSid))
  }

  lemma ShrinksTransitive(cfg: Config, w: World, w1: World, w2: World, page: seq<nat>)
    requires Shrinks(cfg, w, w1) && Shrinks(cfg, w1, w2)
    ensures Shrinks(cfg, w, w2)
    ensures SomeLeft(cfg, w1, page) ==> SomeLeft(cfg, w2, page)
  {
    if SomeLeft(cfg, w1, page) {
      var pk :| pk in page && pk in w1.upstream && pk !in Listed(cfg, w1);
      assert pk !in Listed(cfg, w2);
    }
  }

  ghost predicate SomeLeft(cfg: Config, w1: World, page: seq<nat>) {
    exists pk :: pk in page && pk in w1.upstream && pk !in Listed(cfg, w1)
  }

  lemma OneUpdateShrinks(cfg: Config, w: World, u: Update, refused: set<AnsibleId>, us: seq<Update>, page: seq<nat>)
    requires Pending(w, us, page) && u in us && AllMove(cfg, us)
    ensures var w1 := ApplyAt(w, u, refused);
            && Shrinks(cfg, w, w1) && Pending(w1, us, page) && w1.gateway == w.gateway
            && (Accepted(w, u, refused) ==> SomeLeft(cfg, w1, page))
  {
    OneUpdateKeepsPending(w, u, refused, us, page);
    if Accepted(w, u, refused) {
      var pk :| pk in page && IsRowOf(w, u, pk);
      OneUpdateLands(w, u, refused, pk);
      assert pk !in Listed(cfg, ApplyAt(w, u, refused));
    }
  }

  lemma {:induction false} ApplyShrinks(cfg: Config, w: World, chunk: seq<Update>, refused: set<AnsibleId>,
      us: seq<Update>, page: seq<nat>)
    requires Pending(w, us, page) && AllMove(cfg, us) && forall u :: u in chunk ==> u in us
    ensures var w1 := ServerApply(w, chunk, refused);
            && Shrinks(cfg, w, w1) && Pending(w1, us, page) && w1.gateway == w.gateway
            && (ServerCount(w, chunk, refused) > 0 ==> SomeLeft(cfg, w1, page))
    decreases |chunk|
  {
    if chunk != [] {
      var w1 := ApplyAt(w, chunk[0], refused);
      OneUpdateShrinks(cfg, w, chunk[0], refused, us, page);
      ApplyShrinks(cfg, w1, chunk[1..], refused, us, page);
      ShrinksTransitive(cfg, w, w1, ServerApply(w, chunk, refused), page);
    }
  }

  /** What sending updates of a page does: rows leave the list, some row of the page if any is counted. */
  ghost predicate ShrinksBy(cfg: Config, w: World, w1: World, result: SendResult, us: seq<Update>, page: seq<nat>) {
    && Shrinks(cfg, w, w1) && Pending(w1, us, page) && w1.gateway == w.gateway
    && (result.Updated? && result.count > 0 ==> SomeLeft(cfg, w1, page))
  }

  lemma ShrinksOn(cfg: Config, w: World, w1: World, w2: World, first: SendResult, last: SendResult, both: SendResult,
      us: seq<Update>, page: seq<nat>)
    requires ShrinksBy(cfg, w, w1, first, us, page) && ShrinksBy(cfg, w1, w2, last, us, page)
    requires both.Updated? && both.count > 0 ==>
             (first.Updated? && first.count > 0) || (last.Updated? && last.count > 0)
    ensures ShrinksBy(cfg, w, w2, both, us, page)
  {
    ShrinksTransitive(cfg, w, w1, w2, page);
  }

  lemma {:induction false} ChunkShrinks(
      env: Env, cfg: Config, w: World, tick: nat, chunk: seq<Update>, attempt: nat, us: seq<Update>, page: seq<nat>)
    requires Pending(w, us, page) && AllMove(cfg, us) && forall u :: u in chunk ==> u in us
    ensures var run := SendChunk(env, w, tick, chunk, attempt);
            ShrinksBy(cfg, w, run.world, run.result, us, page)
    decreases MAX_TRANSIENT_RETRIES - attempt
  {
    if attempt < MAX_TRANSIENT_RETRIES {
      var r := env.reply(tick);
      var w1, result := ServerApply(w, chunk, r.refused), Classify(r.answer, attempt, ServerCount(w, chunk, r.refused));
      ApplyShrinks(cfg, w, chunk, r.refused, us, page);
      if result.Retry? {
        ChunkShrinks(env, cfg, w1, tick + 1, chunk, attempt + 1, us, page);
        var rest := SendChunk(env, w1, tick + 1, chunk, attempt + 1);
        ShrinksOn(cfg, w, w1, rest.world, result, rest.result, rest.result, us, page);
      }
    }
  }

  /** The contract of one bulk update: if anything is counted as updated, an item of the page left the list. */
  lemma {:induction false} BulkShrinks(
      env: Env, cfg: Config, w: World, tick: nat, items: seq<Update>, us: seq<Update>, page: seq<nat>)
    requires Pending(w, us, page) && AllMove(cfg, us) && forall u :: u in items ==> u in us
    ensures var run := SendBulk(env, w, tick, items);
            ShrinksBy(cfg, w, run.world, run.result, us, page)
    decreases |items|
  {
    if items != [] {
      var chunk := FirstChunk(items);
      var run := SendChunk(env, w, tick, chunk, 0);
      ChunkShrinks(env, cfg, w, tick, chunk, 0, us, page);
      if run.result.Updated? {
        BulkShrinks(env, cfg, run.world, run.tick, items[|chunk|..], us, page);
        var rest := SendBulk(env, run.world, run.tick, items[|chunk|..]);
        ShrinksOn(cfg, w, run.world, rest.world, run.result, rest.result, SendBulk(env, w, tick, items).result, us,
            page);
      }
    }
  }

  lemma PageShrinks(env: Env, cfg: Config, w: World, tick: nat, page: seq<nat>)
    requires NoneStuck(cfg, w) && UniqueIds(w) && forall pk :: pk in page ==> pk in Migratable(cfg, w)
    ensures var run := ProcessPage(env, cfg, w, tick, page);
            && Shrinks(cfg, w, run.world) && NoneStuck(cfg, run.world) && UniqueIds(run.world)
            && (run.result.Sent? && run.result.count > 0 ==>
                  exists pk :: pk in Migratable(cfg, w) && pk !in Listed(cfg, run.world))
  {
    var made := CreateAll(cfg, w.gateway, Creates(cfg, w, page));
    if made.Some? {
      CreateAllAdds(cfg, w.gateway, Creates(cfg, w, page));
      PageUpdatesArePending(cfg, w, page, made.value);
      var us, w1 := Updates(cfg, w, page), w.(gateway := made.value);
      forall u | u in us ensures u.serviceId != cfg.upstreamSid {
        var pk := UpdatesAreReconciled(cfg, w, page, u);
        assert pk in Migratable(cfg, w);
      }
      assert Listed(cfg, w1) == Listed(cfg, w);
      BulkShrinks(env, cfg, w1, tick, us, us, page);
      var w2 := SendBulk(env, w1, tick, us).world;
      forall pk | pk in Migratable(cfg, w2) ensures !Stuck(cfg, w2, pk) {
        assert pk in Migratable(cfg, w);
      }
      if SomeLeft(cfg, w2, page) {
        var pk :| pk in page && pk in w2.upstream && pk !in Listed(cfg, w2);
        assert pk in Migratable(cfg, w);
      }
    }
  }

  /** Turns that can still be spent: three for every item left, less the strikes already counted. */
  ghost function TurnsLeft(cfg: Config, s: Loop): nat
    requires s.strikes < MAX_ZERO_PROGRESS_PAGES
  {
    if Migratable(cfg, s.world) == {} then 0 else 3 * |Migratable(cfg, s.world)| - s.strikes
  }

  lemma MigratableShrinks(cfg: Config, w: World, w1: World)
    requires Shrinks(cfg, w, w1)
    ensures |Migratable(cfg, w1)| <= |Migratable(cfg, w)|
    ensures (exists pk :: pk in Migratable(cfg, w) && pk !in Listed(cfg, w1)) ==>
            |Migratable(cfg, w1)| < |Migratable(cfg, w)|
  {
    var before, after := Migratable(cfg, w), Migratable(cfg, w1);
    assert after <= before;
    SubsetSize(after, before);
  }

  lemma TurnShrinks(env: Env, cfg: Config, s: Loop)
    requires ServesPages(env, cfg) && NoneStuck(cfg, s.world) && UniqueIds(s.world) && s.status.Running?
    ensures var s1 := Turn(env, cfg, s);
            && NoneStuck(cfg, s1.world) && UniqueIds(s1.world) && Shrinks(cfg, s.world, s1.world)
            && (s1.status.Running? ==> Migratable(cfg, s.world) != {})
            && (s1.status.Running? ==>
                  || s1.strikes == s.strikes + 1 < MAX_ZERO_PROGRESS_PAGES
                  || (s1.strikes == 0 && exists pk :: pk in Migratable(cfg, s.world) && pk !in Listed(cfg, s1.world)))
  {
    var listed := Listed(cfg, s.world);
    var page := env.page(s.tick, listed);
    assert IsPageOf(page, listed, cfg.pageSize);
    var results := WithoutSystem(cfg, s.world, page);
    if results != [] {
      assert results[0] in results;
      assert results[0] in Migratable(cfg, s.world);
      PageShrinks(env, cfg, s.world, s.tick, results);
    }
  }

  lemma TurnMakesProgress(env: Env, cfg: Config, s: Loop)
    requires ServesPages(env, cfg) && NoneStuck(cfg, s.world) && UniqueIds(s.world)
    requires s.status.Running? && s.strikes < MAX_ZERO_PROGRESS_PAGES
    ensures var s1 := Turn(env, cfg, s);
            && s1.fetches == s.fetches + 1
            && (s1.status.Running? ==> s1.strikes < MAX_ZERO_PROGRESS_PAGES && TurnsLeft(cfg, s1) < TurnsLeft(cfg, s))
  {
    TurnShrinks(env, cfg, s);
    MigratableShrinks(cfg, s.world, Turn(env, cfg, s).world);
  }

  lemma {:induction false} StopsInTime(env: Env, cfg: Config, s: Loop, turns: nat)
    requires ServesPages(env, cfg) && NoneStuck(cfg, s.world) && UniqueIds(s.world)
    requires s.status.Running? && s.strikes < MAX_ZERO_PROGRESS_PAGES && turns > TurnsLeft(cfg, s)
    ensures var r := Iterate(env, cfg, s, turns);
            !r.status.Running? && r.fetches <= s.fetches + TurnsLeft(cfg, s) + 1
    decreases turns
  {
    TurnMakesProgress(env, cfg, s);
    var s1 := Turn(env, cfg, s);
    TurnShrinks(env, cfg, s);
    if s1.status.Running? {
      StopsInTime(env, cfg, s1, turns - 1);
    }
  }

  /** If no listed item is stuck, the loop stops after at most 3 * r + 1 page fetches for r migratable
      items, whatever upstream answers. */
  lemma Terminates(env: Env, cfg: Config, w: World)
    requires ServesPages(env, cfg) && NoneStuck(cfg, w) && UniqueIds(w)
    ensures var bound := 3 * |Migratable(cfg, w)| + 1;
            var r := Iterate(env, cfg, Start(w), bound);
            !r.status.Running? && r.fetches <= bound
  {
    StopsInTime(env, cfg, Start(w), 3 * |Migratable(cfg, w)| + 1);
  }

  // ---------- what a normal end means ----------

  /** User names are unique within a service. */
  ghost predicate SystemIsUnique(cfg: Config, w: World) {
    forall p, q :: p in w.upstream && q in w.upstream && IsSystem(cfg, w, p) && IsSystem(cfg, w, q) ==> p == q
  }

  /** Nothing is to be migrated, or a page cannot consist of just the system user. */
  ghost predicate EndIsConclusive(cfg: Config, w: World) {
    || Migratable(cfg, w) == {}
    || cfg.pageSize >= 2
    || (cfg.pageSize == 1 && forall pk :: pk in Listed(cfg, w) ==> !IsSystem(cfg, w, pk))
  }

  lemma ConclusiveStays(cfg: Config, w: World, w1: World)
    requires SystemIsUnique(cfg, w) && EndIsConclusive(cfg, w) && Shrinks(cfg, w, w1)
    ensures SystemIsUnique(cfg, w1) && EndIsConclusive(cfg, w1)
  {
    forall p, q | p in w1.upstream && q in w1.upstream && IsSystem(cfg, w1, p) && IsSystem(cfg, w1, q) ensures p == q {
      assert IsSystem(cfg, w, p) && IsSystem(cfg, w, q);
    }
    assert forall pk :: pk in Listed(cfg, w1) ==>
      pk in Listed(cfg, w) && (IsSystem(cfg, w1, pk) <==> IsSystem(cfg, w, pk));
    if Migratable(cfg, w) == {} {
      assert forall pk :: pk in Migratable(cfg, w1) ==> pk in Migratable(cfg, w);
      assert forall pk :: pk !in Migratable(cfg, w1);
    }
  }

  lemma FinishLeavesOnlySystem(env: Env, cfg: Config, s: Loop)
    requires ServesPages(env, cfg) && SystemIsUnique(cfg, s.world) && EndIsConclusive(cfg, s.world)
    requires s.status.Running? && Turn(env, cfg, s).status.Finished?
    ensures Migratable(cfg, s.world) == {}
  {
    var listed := Listed(cfg, s.world);
    var page := env.page(s.tick, listed);
    assert IsPageOf(page, listed, cfg.pageSize);
    var results := WithoutSystem(cfg, s.world, page);
    if pk :| pk in Migratable(cfg, s.world) {
      assert pk in listed && page != [];
      var first, last := page[0], page[|page| - 1];
      assert first in page && last in page;
      assert IsSystem(cfg, s.world, first) && IsSystem(cfg, s.world, last);
      assert first == last && |page| == 1 && |listed| == 1;
      assert {pk, first} <= listed;
      SubsetSize({pk, first}, listed);
    }
  }

  lemma {:induction false} FinishedIsEmpty(env: Env, cfg: Config, s: Loop, turns: nat)
    requires ServesPages(env, cfg) && SystemIsUnique(cfg, s.world) && EndIsConclusive(cfg, s.world)
    requires NoneStuck(cfg, s.world) && UniqueIds(s.world) && s.status.Running?
    requires Iterate(env, cfg, s, turns).status.Finished?
    ensures Migratable(cfg, Iterate(env, cfg, s, turns).world) == {}
    decreases turns
  {
    TurnShrinks(env, cfg, s);
    var s1 := Turn(env, cfg, s);
    if s1.status.Running? {
      ConclusiveStays(cfg, s.world, s1.world);
      FinishedIsEmpty(env, cfg, s1, turns - 1);
    } else {
      FinishLeavesOnlySystem(env, cfg, s);
    }
  }

  lemma {:induction false} LoopShrinks(env: Env, cfg: Config, s: Loop, turns: nat)
    requires ServesPages(env, cfg) && NoneStuck(cfg, s.world) && UniqueIds(s.world)
    ensures Shrinks(cfg, s.world, Iterate(env, cfg, s, turns).world)
    decreases turns
  {
    if turns > 0 && s.status.Running? {
      TurnShrinks(env, cfg, s);
      var s1 := Turn(env, cfg, s);
      LoopShrinks(env, cfg, s1, turns - 1);
      ShrinksTransitive(cfg, s.world, s1.world, Iterate(env, cfg, s1, turns - 1).world, []);
    }
  }

  lemma LeftMeansMerged(cfg: Config, w: World, w1: World)
    requires Shrinks(cfg, w, w1) && MergedSince(cfg, w, w1) && Migratable(cfg, w1) == {}
    ensures forall pk :: pk in Migratable(cfg, w) ==> pk in w1.touched && Merged(cfg, w, w1, pk)
  {
    forall pk | pk in Migratable(cfg, w) ensures pk in w1.touched && Merged(cfg, w, w1, pk) {
      assert pk !in Migratable(cfg, w1);
    }
  }

  /** A normal end that is conclusive: nothing but the system user is left under the filter, and every item
      that was to be migrated now carries the ansible_id and the data of the gateway row with its key. */
  lemma FinishedMeansMigrated(env: Env, cfg: Config, w: World, turns: nat)
    requires ServesPages(env, cfg) && SystemIsUnique(cfg, w) && EndIsConclusive(cfg, w)
    requires NoneStuck(cfg, w) && UniqueIds(w) && Agreement(w)
    requires Iterate(env, cfg, Start(w), turns).status.Finished?
    ensures var w1 := Iterate(env, cfg, Start(w), turns).world;
            && Migratable(cfg, w1) == {}
            && (forall pk :: pk in Migratable(cfg, w) ==>
                  pk in w1.touched && Agrees(w1, pk) && Merged(cfg, w, w1, pk))
  {
    LoopMerges(env, cfg, Start(w), turns);
    FinishedIsEmpty(env, cfg, Start(w), turns);
    LoopShrinks(env, cfg, Start(w), turns);
    LoopKeepsAgreement(env, cfg, Start(w), turns);
    LeftMeansMerged(cfg, w, Iterate(env, cfg, Start(w), turns).world);
  }

  // ---------- pages that could be served ----------

  ghost function Enumerate(s: set<nat>): (order: seq<nat>)
    ensures (forall x :: x in order <==> x in s) && |order| == |s|
    ensures forall i, j :: 0 <= i < j < |order| ==> order[i] != order[j]
    decreases s
  {
    if s == {} then []
    else
      var x := Pick(s);
      [x] + Enumerate(s - {x})
  }

  /** A page of the listed items that starts with one of them, if it is listed. */
  ghost function PageFrom(listed: set<nat>, size: nat, first: nat): (page: seq<nat>)
    ensures IsPageOf(page, listed, size)
    ensures first in listed && size > 0 ==> |page| > 0 && page[0] == first
  {
    var order := if first in listed then [first] + Enumerate(listed - {first}) else Enumerate(listed);
    assert |order| == |listed| && forall pk :: pk in order ==> pk in listed;
    if |order| <= size then order
    else
      assert forall pk :: pk in order[..size] ==> pk in order;
      order[..size]
  }

  ghost function EnvFrom(cfg: Config, first: nat, reply: nat -> Reply): Env {
    Env((tick: nat, listed: set<nat>) => PageFrom(listed, cfg.pageSize, first), reply)
  }

  /** Where it is not conclusive, the very first page may end the loop with items left. */
  lemma InconclusiveEnd(cfg: Config, w: World) returns (env: Env)
    requires !EndIsConclusive(cfg, w)
    ensures ServesPages(env, cfg) && Iterate(env, cfg, Start(w), 1).status.Finished?
    ensures Iterate(env, cfg, Start(w), 1).world == w && Migratable(cfg, w) != {}
  {
    var first := 0;
    if cfg.pageSize == 1 {
      var pk :| pk in Listed(cfg, w) && IsSystem(cfg, w, pk);
      first := pk;
    }
    env := EnvFrom(cfg, first, (t: nat) => Reply({}, Json));
    EmptyFirstPage(env, cfg, w);
  }

  lemma EmptyFirstPage(env: Env, cfg: Config, w: World)
    requires ServesPages(env, cfg)
    requires forall pk :: pk in env.page(0, Listed(cfg, w)) ==> pk in w.upstream && IsSystem(cfg, w, pk)
    ensures Iterate(env, cfg, Start(w), 1).status.Finished? && Iterate(env, cfg, Start(w), 1).world == w
  {
    var page := env.page(0, Listed(cfg, w));
    assert IsPageOf(page, Listed(cfg, w), cfg.pageSize);
    var results := WithoutSystem(cfg, w, page);
    FirstIsIn(results);
    assert Iterate(env, cfg, Turn(env, cfg, Start(w)), 0).status.Finished?;
  }

  ghost predicate EveryEndIsEmpty(cfg: Config, w: World) {
    forall env: Env, turns: nat {:trigger Iterate(env, cfg, Start(w), turns)} ::
      ServesPages(env, cfg) && Iterate(env, cfg, Start(w), turns).status.Finished? ==>
        Migratable(cfg, Iterate(env, cfg, Start(w), turns).world) == {}
  }

  /** A normal end leaves nothing to migrate, whatever pages are served and however upstream answers, exactly
      when nothing was to be migrated, or pages hold two or more items, or one and the system user is not listed. */
  lemma EveryEndIsEmptyIff(cfg: Config, w: World)
    requires SystemIsUnique(cfg, w) && NoneStuck(cfg, w) && UniqueIds(w)
    ensures EveryEndIsEmpty(cfg, w) <==> EndIsConclusive(cfg, w)
  {
    if EndIsConclusive(cfg, w) {
      forall env: Env, turns: nat | ServesPages(env, cfg) && Iterate(env, cfg, Start(w), turns).status.Finished?
        ensures Migratable(cfg, Iterate(env, cfg, Start(w), turns).world) == {}
      {
        FinishedIsEmpty(env, cfg, Start(w), turns);
      }
    } else {
      var env := InconclusiveEnd(cfg, w);
      assert Iterate(env, cfg, Start(w), 1).status.Finished?;
    }
  }

  // ---------- what the conditions above exclude ----------

  /** The loop cannot mistake a page of just the system user for the end. */
  ghost predicate Steady(cfg: Config, w: World) {
    cfg.pageSize >= 2 || (cfg.pageSize == 1 && forall pk :: pk in w.upstream ==> !IsSystem(cfg, w, pk))
  }

  lemma ApplyKeepsUnique(w: World, u: Update, refused: set<AnsibleId>)
    requires UniqueIds(w)
    ensures UniqueIds(ApplyAt(w, u, refused))
  {
    if Accepted(w, u, refused) {
      var w1 := ApplyAt(w, u, refused);
      forall p, q | SameId(w1.upstream, p, q) ensures p == q {
        assert w.upstream[p].ansibleId == w.upstream[q].ansibleId ==> SameId(w.upstream, p, q);
        assert p in Holders(w, u.target) || (p in Holders(w, NewId(u)) ==> p in Holders(w, u.target));
        assert q in Holders(w, u.target) || (q in Holders(w, NewId(u)) ==> q in Holders(w, u.target));
      }
    }
  }

  lemma PageKeepsStuck(env: Env, cfg: Config, w: World, tick: nat, page: seq<nat>, pk: nat)
    requires UniqueIds(w) && forall p :: p in page ==> p in w.upstream
    requires pk in Listed(cfg, w) && Stuck(cfg, w, pk)
    ensures var w1 := ProcessPage(env, cfg, w, tick, page).world;
            pk in Listed(cfg, w1) && Stuck(cfg, w1, pk) && w1.upstream[pk].key == w.upstream[pk].key
  {
    var made := CreateAll(cfg, w.gateway, Creates(cfg, w, page));
    if made.Some? {
      CreateAllAdds(cfg, w.gateway, Creates(cfg, w, page));
      var item, us := w.upstream[pk], Updates(cfg, w, page);
      var P := (v: World) =>
        && v.gateway == made.value && pk in v.upstream
        && v.upstream[pk].(data := item.data) == item;
      forall v, u, refused | P(v) && u in us ensures P(ApplyAt(v, u, refused)) {
        var q := UpdatesAreReconciled(cfg, w, page, u);
        assert u.target == w.upstream[q].ansibleId;
        assert u.target == item.ansibleId ==> SameId(w.upstream, q, pk);
      }
      BulkKeeps(P, us, env, w.(gateway := made.value), tick, us);
    }
  }

  lemma PageKeepsNames(env: Env, cfg: Config, w: World, tick: nat, page: seq<nat>)
    requires SystemIsUnique(cfg, w) && Steady(cfg, w) && UniqueIds(w) && forall pk :: pk in page ==> pk in w.upstream
    ensures var w1 := ProcessPage(env, cfg, w, tick, page).world;
            SystemIsUnique(cfg, w1) && Steady(cfg, w1) && UniqueIds(w1)
  {
    var made := CreateAll(cfg, w.gateway, Creates(cfg, w, page));
    if made.Some? {
      var us, w1 := Updates(cfg, w, page), w.(gateway := made.value);
      var P := (v: World) =>
        && UniqueIds(v) && v.upstream.Keys == w.upstream.Keys
        && forall pk :: pk in w.upstream ==> v.upstream[pk].key == w.upstream[pk].key;
      forall v, u, refused | P(v) && u in us ensures P(ApplyAt(v, u, refused)) {
        ApplyKeepsUnique(v, u, refused);
      }
      BulkKeeps(P, us, env, w1, tick, us);
      var w2 := SendBulk(env, w1, tick, us).world;
      assert P(w2);
      assert forall p :: p in w2.upstream ==> (IsSystem(cfg, w2, p) <==> IsSystem(cfg, w, p));
    }
  }

  /** A stuck item stays listed for ever, so with one present the loop never ends normally. */
  lemma {:induction false} StuckNeverFinishes(env: Env, cfg: Config, s: Loop, turns: nat, pk: nat)
    requires ServesPages(env, cfg) && Steady(cfg, s.world) && SystemIsUnique(cfg, s.world) && UniqueIds(s.world)
    requires pk in Migratable(cfg, s.world) && Stuck(cfg, s.world, pk) && !s.status.Finished?
    ensures var r := Iterate(env, cfg, s, turns);
            !r.status.Finished? && pk in Migratable(cfg, r.world)
    decreases turns
  {
    if turns > 0 && s.status.Running? {
      StuckTurn(env, cfg, s, pk);
      StuckNeverFinishes(env, cfg, Turn(env, cfg, s), turns - 1, pk);
    }
  }

  lemma StuckTurn(env: Env, cfg: Config, s: Loop, pk: nat)
    requires ServesPages(env, cfg) && Steady(cfg, s.world) && SystemIsUnique(cfg, s.world) && UniqueIds(s.world)
    requires pk in Migratable(cfg, s.world) && Stuck(cfg, s.world, pk) && s.status.Running?
    ensures var s1 := Turn(env, cfg, s);
            && !s1.status.Finished? && pk in Migratable(cfg, s1.world) && Stuck(cfg, s1.world, pk)
            && Steady(cfg, s1.world) && SystemIsUnique(cfg, s1.world) && UniqueIds(s1.world)
  {
    if Turn(env, cfg, s).status.Finished? {
      FinishLeavesOnlySystem(env, cfg, s);
    }
    var page := env.page(s.tick, Listed(cfg, s.world));
    assert IsPageOf(page, Listed(cfg, s.world), cfg.pageSize);
    var results := WithoutSystem(cfg, s.world, page);
    PageKeepsStuck(env, cfg, s.world, s.tick, results, pk);
    PageKeepsNames(env, cfg, s.world, s.tick, results);
  }

  /** Upstream refuses nothing it can do, and every request ends well. */
  ghost predicate Cooperative(env: Env) {
    forall t :: env.reply(t).answer.Json? && env.reply(t).refused == {}
  }

  /** No row holds, or is to get, the id that another row is to get. */
  ghost predicate NoCrossing(w: World) {
    forall p, q :: p in w.upstream && q in w.upstream && p != q && w.upstream[p].key in w.gateway ==>
      && w.gateway[w.upstream[p].key].ansibleId != w.upstream[q].ansibleId
      && (w.upstream[q].key in w.gateway ==>
         w.gateway[w.upstream[p].key].ansibleId != w.gateway[w.upstream[q].key].ansibleId)
  }

  /** Every item still to be created can be: the gateway does not use its id, and no other upstream row has its key. */
  ghost predicate AllCreatable(cfg: Config, w: World) {
    forall pk :: pk in Migratable(cfg, w) && w.upstream[pk].key !in w.gateway ==>
      && !AnsibleIdUsed(w.gateway, w.upstream[pk].ansibleId)
      && forall q :: q in w.upstream && q != pk ==> w.upstream[q].key != w.upstream[pk].key
  }

  ghost predicate Uncrossed(w: World) {
    UniqueIds(w) && NoCrossing(w)
  }

  ghost predicate Smooth(cfg: Config, w: World) {
    Uncrossed(w) && AllCreatable(cfg, w)
  }

  /** The updates name different rows, each still at its old id. */
  ghost predicate Waiting(w: World, us: seq<Update>) {
    && (forall i :: 0 <= i < |us| ==> exists pk :: IsRowOf(w, us[i], pk) && w.upstream[pk].ansibleId == us[i].target)
    && (forall i, j :: 0 <= i < j < |us| ==> us[i].target != us[j].target)
  }

  lemma SmoothUpdate(w: World, us: seq<Update>)
    requires Uncrossed(w) && Waiting(w, us) && us != []
    ensures Accepted(w, us[0], {}) && Uncrossed(ApplyAt(w, us[0], {})) && Waiting(ApplyAt(w, us[0], {}), us[1..])
  {
    var u := us[0];
    var pk :| IsRowOf(w, u, pk) && w.upstream[pk].ansibleId == u.target;
    assert pk in Holders(w, u.target);
    assert Accepted(w, u, {});
    OneUpdateLands(w, u, {}, pk);
    var w1 := ApplyAt(w, u, {});
    forall i | 0 <= i < |us[1..]|
      ensures exists q :: IsRowOf(w1, us[1..][i], q) && w1.upstream[q].ansibleId == us[1..][i].target
    {
      var t := us[i + 1];
      var q :| IsRowOf(w, t, q) && w.upstream[q].ansibleId == t.target;
      assert IsRowOf(w1, t, q) && w1.upstream[q] == w.upstream[q];
    }
  }

  lemma {:induction false} SmoothChunk(w: World, us: seq<Update>, n: nat)
    requires Uncrossed(w) && Waiting(w, us) && n <= |us|
    ensures ServerCount(w, us[..n], {}) == n
    ensures Uncrossed(ServerApply(w, us[..n], {})) && Waiting(ServerApply(w, us[..n], {}), us[n..])
    decreases n
  {
    if n > 0 {
      SmoothUpdate(w, us);
      SmoothChunk(ApplyAt(w, us[0], {}), us[1..], n - 1);
      assert us[..n][1..] == us[1..][..n - 1] && us[1..][n - 1..] == us[n..];
    } else {
      assert us[..0] == [] && us[0..] == us;
    }
  }

  lemma {:induction false} CooperativeBulk(env: Env, w: World, tick: nat, us: seq<Update>)
    requires Cooperative(env) && Uncrossed(w) && Waiting(w, us)
    ensures var run := SendBulk(env, w, tick, us);
            run.result == Updated(|us|) && Uncrossed(run.world)
    decreases |us|
  {
    if us != [] {
      var n := |FirstChunk(us)|;
      assert FirstChunk(us) == us[..n];
      assert env.reply(tick).answer.Json? && env.reply(tick).refused == {};
      SmoothChunk(w, us, n);
      CooperativeBulk(env, ServerApply(w, us[..n], {}), tick + 1, us[n..]);
    }
  }

  ghost predicate NoRepeats(page: seq<nat>) {
    forall i, j :: 0 <= i < j < |page| ==> page[i] != page[j]
  }

  /** Once its new rows are created, the updates of a page wait for their rows. */
  lemma {:induction false} PageWaits(cfg: Config, w: World, gateway: map<Key, GatewayRow>, page: seq<nat>)
    requires UniqueIds(w) && NoRepeats(page) && forall pk :: pk in page ==> pk in w.upstream
    requires forall pk :: pk in page ==> HasRow(w, gateway, pk)
    ensures |Updates(cfg, w, page)| == |page| && Waiting(w.(gateway := gateway), Updates(cfg, w, page))
    decreases |page|
  {
    if page != [] {
      PageWaits(cfg, w, gateway, page[1..]);
      var w1, us := w.(gateway := gateway), Updates(cfg, w, page);
      assert us[1..] == Updates(cfg, w, page[1..]);
      assert HasRow(w, gateway, page[0]) && IsRowOf(w1, us[0], page[0]);
      forall j | 0 <= j < |us[1..]| ensures us[0].target != us[1..][j].target {
        var q := UpdatesAreReconciled(cfg, w, page[1..], us[1..][j]);
        var k :| 0 <= k < |page[1..]| && page[1..][k] == q;
        assert page[k + 1] == q;
        assert us[0].target == us[1..][j].target ==> SameId(w.upstream, page[0], q);
      }
      WaitingCons(w1, us);
    }
  }

  /** The gateway has the row it had for the item, or one with the item's own id. */
  ghost predicate HasRow(w: World, gateway: map<Key, GatewayRow>, pk: nat)
    requires pk in w.upstream
  {
    var item := w.upstream[pk];
    && item.key in gateway
    && (item.key in w.gateway ==> gateway[item.key] == w.gateway[item.key])
    && (item.key !in w.gateway ==>
          gateway[item.key].ansibleId == item.ansibleId && gateway[item.key].data == item.data)
  }

  lemma WaitingCons(w: World, us: seq<Update>)
    requires us != [] && Waiting(w, us[1..])
    requires exists pk :: IsRowOf(w, us[0], pk) && w.upstream[pk].ansibleId == us[0].target
    requires forall j :: 0 <= j < |us[1..]| ==> us[0].target != us[1..][j].target
    ensures Waiting(w, us)
  {
    forall i | 0 <= i < |us| ensures exists pk :: IsRowOf(w, us[i], pk) && w.upstream[pk].ansibleId == us[i].target {
      if i > 0 {
        assert us[i] == us[1..][i - 1];
      }
    }
    forall i, j | 0 <= i < j < |us| ensures us[i].target != us[j].target {
      assert us[j] == us[1..][j - 1];
      if i > 0 {
        assert us[i] == us[1..][i - 1];
      }
    }
  }

  // ---------- creating the new rows of a page ----------

  lemma {:induction false} CreatesAreNew(cfg: Config, w: World, page: seq<nat>, item: Item) returns (pk: nat)
    requires forall p :: p in page ==> p in w.upstream
    requires item in Creates(cfg, w, page)
    ensures pk in page && item == w.upstream[pk] && item.key !in w.gateway
    decreases |page|
  {
    pk := page[0];
    if item != w.upstream[pk] || item.key in w.gateway {
      pk := CreatesAreNew(cfg, w, page[1..], item);
    }
  }

  /** The items of the page are of rows that are still to be migrated. */
  predicate OfMigratable(cfg: Config, w: World, page: seq<nat>) {
    forall pk :: pk in page ==> pk in Migratable(cfg, w)
  }

  lemma {:induction false} CreatesAreUnique(cfg: Config, w: World, page: seq<nat>)
    requires Smooth(cfg, w) && NoRepeats(page) && OfMigratable(cfg, w, page)
    ensures Unique(Creates(cfg, w, page))
    decreases |page|
  {
    if page != [] {
      var items, rest := Creates(cfg, w, page), Creates(cfg, w, page[1..]);
      CreatesAreUnique(cfg, w, page[1..]);
      assert page[0] in page;
      forall i, j | 0 <= i < j < |items|
        ensures items[i].key != items[j].key && items[i].ansibleId != items[j].ansibleId
      {
        if w.upstream[page[0]].key !in w.gateway {
          assert items[j] == rest[j - 1];
          if i == 0 {
            var q := CreatesAreNew(cfg, w, page[1..], rest[j - 1]);
            var k :| 0 <= k < |page[1..]| && page[1..][k] == q;
            assert page[k + 1] == q;
            assert w.upstream[page[0]].ansibleId == w.upstream[q].ansibleId ==> SameId(w.upstream, page[0], q);
          } else {
            assert items[i] == rest[i - 1];
          }
        }
      }
    }
  }

  /** So the transaction commits, and each item of the page then has its row. */
  lemma PageIsCreated(cfg: Config, w: World, page: seq<nat>) returns (gateway: map<Key, GatewayRow>)
    requires Smooth(cfg, w) && NoRepeats(page) && OfMigratable(cfg, w, page)
    ensures CreateAll(cfg, w.gateway, Creates(cfg, w, page)) == Some(gateway)
    ensures forall pk :: pk in page ==> HasRow(w, gateway, pk)
    ensures forall k :: k in w.gateway ==> k in gateway && gateway[k] == w.gateway[k]
    ensures forall k :: k in gateway && k !in w.gateway ==> MadeFrom(w, page, gateway, k)
  {
    var items := Creates(cfg, w, page);
    CreatesAreUnique(cfg, w, page);
    forall item | item in items ensures item.key !in w.gateway && !AnsibleIdUsed(w.gateway, item.ansibleId) {
      var pk := CreatesAreNew(cfg, w, page, item);
    }
    CreateSucceedsIff(cfg, w.gateway, items);
    CreateAllAdds(cfg, w.gateway, items);
    gateway := CreateAll(cfg, w.gateway, items).value;
    forall pk | pk in page ensures HasRow(w, gateway, pk) {
      if w.upstream[pk].key !in w.gateway {
        CreatesHasTheNew(cfg, w, page, pk);
      }
    }
    forall k | k in gateway && k !in w.gateway ensures MadeFrom(w, page, gateway, k) {
      var item := CreateAllOnly(cfg, w.gateway, items, k);
      var pk := CreatesAreNew(cfg, w, page, item);
    }
  }

  /** The gateway row was made from an item of the page. */
  ghost predicate MadeFrom(w: World, page: seq<nat>, gateway: map<Key, GatewayRow>, k: Key) {
    && k in gateway
    && exists pk :: pk in page && pk in w.upstream && w.upstream[pk].key == k
                    && gateway[k].ansibleId == w.upstream[pk].ansibleId
  }

  lemma {:induction false} CreateAllOnly(cfg: Config, gateway: map<Key, GatewayRow>, items: seq<Item>, k: Key)
      returns (item: Item)
    requires CreateAll(cfg, gateway, items).Some? && k in CreateAll(cfg, gateway, items).value && k !in gateway
    ensures item in items && item.key == k
    decreases |items|
  {
    item := items[0];
    if item.key != k {
      item := CreateAllOnly(cfg, gateway[item.key := GatewayRow(item.ansibleId, cfg.gatewaySid, item.data)],
        items[1..], k);
    }
  }

  lemma CreatedIsUncrossed(cfg: Config, w: World, page: seq<nat>, gateway: map<Key, GatewayRow>)
    requires Smooth(cfg, w) && OfMigratable(cfg, w, page)
    requires forall k :: k in w.gateway ==> k in gateway && gateway[k] == w.gateway[k]
    requires forall k :: k in gateway && k !in w.gateway ==> MadeFrom(w, page, gateway, k)
    ensures Uncrossed(w.(gateway := gateway))
  {
    forall p, q | p in w.upstream && q in w.upstream && p != q && w.upstream[p].key in gateway
      ensures gateway[w.upstream[p].key].ansibleId != w.upstream[q].ansibleId
      ensures w.upstream[q].key in gateway ==>
              gateway[w.upstream[p].key].ansibleId != gateway[w.upstream[q].key].ansibleId
    {
      IdOfRow(cfg, w, page, gateway, p);
      assert !SameId(w.upstream, p, q);
      if w.upstream[q].key in gateway {
        IdOfRow(cfg, w, page, gateway, q);
      }
    }
  }

  /** The row of an item is the one it had, or was made from the item itself, whose id nobody else used. */
  lemma IdOfRow(cfg: Config, w: World, page: seq<nat>, gateway: map<Key, GatewayRow>, p: nat)
    requires Smooth(cfg, w) && OfMigratable(cfg, w, page) && p in w.upstream && w.upstream[p].key in gateway
    requires forall k :: k in w.gateway ==> k in gateway && gateway[k] == w.gateway[k]
    requires forall k :: k in gateway && k !in w.gateway ==> MadeFrom(w, page, gateway, k)
    ensures var item := w.upstream[p];
            if item.key in w.gateway then gateway[item.key] == w.gateway[item.key]
            else gateway[item.key].ansibleId == item.ansibleId && !AnsibleIdUsed(w.gateway, item.ansibleId)
  {
    var k := w.upstream[p].key;
    if k !in w.gateway {
      assert MadeFrom(w, page, gateway, k);
      var pk :| pk in page && pk in w.upstream && w.upstream[pk].key == k
        && gateway[k].ansibleId == w.upstream[pk].ansibleId;
      assert pk == p;
    }
  }

  // ---------- a page with a faultless upstream ----------

  /** No row without a gateway row is touched. */
  ghost predicate OthersStay(w: World, v: World) {
    && v.gateway == w.gateway && v.upstream.Keys == w.upstream.Keys
    && (forall pk :: pk in w.upstream ==> v.upstream[pk].key == w.upstream[pk].key)
    && (forall pk :: pk in w.upstream && w.upstream[pk].key !in w.gateway ==> v.upstream[pk] == w.upstream[pk])
  }

  lemma BulkLeavesOthers(env: Env, w: World, tick: nat, us: seq<Update>)
    requires UniqueIds(w) && Waiting(w, us)
    ensures OthersStay(w, SendBulk(env, w, tick, us).world)
  {
    var P := (v: World) => OthersStay(w, v);
    forall v, u, refused | P(v) && u in us ensures P(ApplyAt(v, u, refused)) {
      var i :| 0 <= i < |us| && us[i] == u;
      var q :| IsRowOf(w, us[i], q) && w.upstream[q].ansibleId == us[i].target;
      forall pk | pk in w.upstream && w.upstream[pk].key !in w.gateway ensures v.upstream[pk].ansibleId != u.target {
        assert !SameId(w.upstream, pk, q);
      }
    }
    BulkKeeps(P, us, env, w, tick, us);
  }

  lemma CreatableStays(cfg: Config, w: World, page: seq<nat>, gateway: map<Key, GatewayRow>, w1: World)
    requires Smooth(cfg, w) && OfMigratable(cfg, w, page)
    requires forall k :: k in w.gateway ==> k in gateway && gateway[k] == w.gateway[k]
    requires forall k :: k in gateway && k !in w.gateway ==> MadeFrom(w, page, gateway, k)
    requires OthersStay(w.(gateway := gateway), w1)
    ensures AllCreatable(cfg, w1)
  {
    forall pk | pk in Migratable(cfg, w1) && w1.upstream[pk].key !in gateway
      ensures !AnsibleIdUsed(gateway, w1.upstream[pk].ansibleId)
      ensures forall q :: q in w1.upstream && q != pk ==> w1.upstream[q].key != w1.upstream[pk].key
    {
      assert w1.upstream[pk] == w.upstream[pk] && pk in Migratable(cfg, w);
      forall k | k in gateway ensures gateway[k].ansibleId != w.upstream[pk].ansibleId {
        if k !in w.gateway {
          assert MadeFrom(w, page, gateway, k);
          var q :| q in page && q in w.upstream && w.upstream[q].key == k
            && gateway[k].ansibleId == w.upstream[q].ansibleId;
          assert !SameId(w.upstream, q, pk);
        }
      }
    }
  }

  lemma CooperativePage(env: Env, cfg: Config, w: World, tick: nat, page: seq<nat>)
    requires Cooperative(env) && Smooth(cfg, w) && OfMigratable(cfg, w, page) && NoRepeats(page)
    ensures var run := ProcessPage(env, cfg, w, tick, page);
            run.result == Sent(|page|) && Smooth(cfg, run.world)
  {
    var gateway := PageIsCreated(cfg, w, page);
    var w1, us := w.(gateway := gateway), Updates(cfg, w, page);
    CreatedIsUncrossed(cfg, w, page, gateway);
    PageWaits(cfg, w, gateway, page);
    CooperativeBulk(env, w1, tick, us);
    BulkLeavesOthers(env, w1, tick, us);
    CreatableStays(cfg, w, page, gateway, SendBulk(env, w1, tick, us).world);
  }

  /** And if upstream does everything right, such a loop does not end at all: each page is counted as
      progress, so the stall counter never helps. */
  lemma {:induction false} StuckLoopsForever(env: Env, cfg: Config, s: Loop, turns: nat, pk: nat)
    requires ServesPages(env, cfg) && Steady(cfg, s.world) && SystemIsUnique(cfg, s.world)
    requires pk in Migratable(cfg, s.world) && Stuck(cfg, s.world, pk) && s.status.Running?
    requires Cooperative(env) && Smooth(cfg, s.world)
    ensures Iterate(env, cfg, s, turns).status.Running?
    decreases turns
  {
    if turns > 0 {
      StuckTurn(env, cfg, s, pk);
      var page := env.page(s.tick, Listed(cfg, s.world));
      assert IsPageOf(page, Listed(cfg, s.world), cfg.pageSize);
      WithoutSystemDistinct(cfg, s.world, page);
      assert OfMigratable(cfg, s.world, WithoutSystem(cfg, s.world, page));
      CooperativePage(env, cfg, s.world, s.tick, WithoutSystem(cfg, s.world, page));
      StuckLoopsForever(env, cfg, Turn(env, cfg, s), turns - 1, pk);
    }
  }

  lemma {:induction false} WithoutSystemDistinct(cfg: Config, w: World, page: seq<nat>)
    requires forall pk :: pk in page ==> pk in w.upstream
    requires NoRepeats(page)
    ensures NoRepeats(WithoutSystem(cfg, w, page))
    decreases |page|
  {
    if page != [] {
      WithoutSystemDistinct(cfg, w, page[1..]);
      assert page[0] !in page[1..];
      assert forall k :: 0 <= k < |WithoutSystem(cfg, w, page[1..])| ==>
        WithoutSystem(cfg, w, page[1..])[k] in page[1..];
    }
  }

  /** With a faultless upstream whose ids do not cross and whose new items can be created, the loop ends exactly when
      no migratable item is stuck. */
  lemma EndsIffNoneStuck(env: Env, cfg: Config, w: World)
    requires ServesPages(env, cfg) && Steady(cfg, w) && SystemIsUnique(cfg, w) && cfg.gatewaySid != cfg.upstreamSid
    requires Cooperative(env) && Smooth(cfg, w)
    ensures (exists turns :: !Iterate(env, cfg, Start(w), turns).status.Running?) <==> NoneStuck(cfg, w)
  {
    if NoneStuck(cfg, w) {
      Terminates(env, cfg, w);
    } else {
      var pk :| pk in Migratable(cfg, w) && Stuck(cfg, w, pk);
      forall turns: nat ensures Iterate(env, cfg, Start(w), turns).status.Running? {
        StuckLoopsForever(env, cfg, Start(w), turns, pk);
      }
    }
  }

  /** One user whose gateway row already has its id, and still the service id of upstream, is enough. */
  lemma SomeLoopRunsForever() returns (env: Env, cfg: Config, w: World)
    ensures ServesPages(env, cfg) && Steady(cfg, w) && SystemIsUnique(cfg, w) && Cooperative(env) && Smooth(cfg, w)
    ensures cfg.gatewaySid != cfg.upstreamSid && Agreement(w)
    ensures forall turns :: Iterate(env, cfg, Start(w), turns).status.Running?
  {
    cfg := Config("gateway", "hub", None, 2);
    w := World(map[0 := Item("bob", "a", "hub", false, "")], map["bob" := GatewayRow("a", "hub", "")], {});
    env := EnvFrom(cfg, 0, (t: nat) => Reply({}, Json));
    assert 0 in Migratable(cfg, w) && Stuck(cfg, w, 0);
    forall turns: nat ensures Iterate(env, cfg, Start(w), turns).status.Running? {
      StuckLoopsForever(env, cfg, Start(w), turns, 0);
    }
  }

  // ---------- ids that cross ----------

  /** Another row upstream has the id the item is to get. */
  ghost predicate Blocked(w: World, pk: nat)
    requires pk in w.upstream
  {
    w.upstream[pk].key in w.gateway &&
    exists q :: q in w.upstream && q != pk && w.upstream[q].ansibleId == w.gateway[w.upstream[pk].key].ansibleId
  }

  lemma {:induction false} BlockedChunk(w: World, chunk: seq<Update>, refused: set<AnsibleId>)
    requires forall u :: u in chunk ==> !Possible(w, u)
    ensures ServerApply(w, chunk, refused) == w && ServerCount(w, chunk, refused) == 0
    decreases |chunk|
  {
    if chunk != [] {
      BlockedChunk(w, chunk[1..], refused);
    }
  }

  lemma {:induction false} BlockedBulk(env: Env, w: World, tick: nat, us: seq<Update>)
    requires Cooperative(env) && forall u :: u in us ==> !Possible(w, u)
    ensures SendBulk(env, w, tick, us).world == w && SendBulk(env, w, tick, us).result == Updated(0)
    decreases |us|
  {
    if us != [] {
      assert env.reply(tick).answer.Json? && env.reply(tick).refused == {};
      BlockedChunk(w, FirstChunk(us), {});
      BlockedBulk(env, w, tick + 1, us[|FirstChunk(us)|..]);
    }
  }

  lemma {:induction false} NothingToCreate(cfg: Config, w: World, page: seq<nat>)
    requires forall pk :: pk in page ==> pk in w.upstream && w.upstream[pk].key in w.gateway
    ensures Creates(cfg, w, page) == []
    decreases |page|
  {
    if page != [] {
      NothingToCreate(cfg, w, page[1..]);
    }
  }

  lemma BlockedPage(env: Env, cfg: Config, w: World, tick: nat, page: seq<nat>)
    requires Cooperative(env) && UniqueIds(w) && forall pk :: pk in page ==> pk in w.upstream && Blocked(w, pk)
    requires NoRepeats(page)
    ensures var run := ProcessPage(env, cfg, w, tick, page);
            run.result == Sent(0) && run.world == w
  {
    NothingToCreate(cfg, w, page);
    PageWaits(cfg, w, w.gateway, page);
    forall u | u in Updates(cfg, w, page) ensures !Possible(w, u) {
      var pk := UpdatesAreReconciled(cfg, w, page, u);
      var q :| q in w.upstream && q != pk && w.upstream[q].ansibleId == w.gateway[w.upstream[pk].key].ansibleId;
      assert q in Holders(w, u.target) ==> SameId(w.upstream, q, pk);
      assert q in Holders(w, NewId(u)) && q !in Holders(w, u.target);
    }
    assert w.(gateway := w.gateway) == w;
    BlockedBulk(env, w, tick, Updates(cfg, w, page));
  }

  lemma BlockedTurn(env: Env, cfg: Config, s: Loop)
    requires ServesPages(env, cfg) && EndIsConclusive(cfg, s.world) && SystemIsUnique(cfg, s.world)
    requires Cooperative(env) && UniqueIds(s.world) && s.status.Running? && Migratable(cfg, s.world) != {}
    requires forall pk :: pk in Migratable(cfg, s.world) ==> Blocked(s.world, pk)
    ensures var s1 := Turn(env, cfg, s);
            && s1.world == s.world && s1.strikes == s.strikes + 1
            && s1.status == (if s.strikes + 1 >= MAX_ZERO_PROGRESS_PAGES then Stalled else Running)
  {
    if Turn(env, cfg, s).status.Finished? {
      FinishLeavesOnlySystem(env, cfg, s);
    }
    var page := env.page(s.tick, Listed(cfg, s.world));
    assert IsPageOf(page, Listed(cfg, s.world), cfg.pageSize);
    var results := WithoutSystem(cfg, s.world, page);
    WithoutSystemDistinct(cfg, s.world, page);
    forall pk | pk in results ensures Blocked(s.world, pk) {
      assert pk in Migratable(cfg, s.world);
    }
    BlockedPage(env, cfg, s.world, s.tick, results);
  }

  /** If every item is to get an id that another row has, for instance when two rows have each other's, nothing
      can be updated and the loop gives up after three pages. */
  lemma CrossedIdsStall(env: Env, cfg: Config, w: World)
    requires ServesPages(env, cfg) && EndIsConclusive(cfg, w) && SystemIsUnique(cfg, w)
    requires Cooperative(env) && UniqueIds(w) && Migratable(cfg, w) != {}
    requires forall pk :: pk in Migratable(cfg, w) ==> Blocked(w, pk)
    ensures Iterate(env, cfg, Start(w), 3).status.Stalled? && Iterate(env, cfg, Start(w), 3).world == w
  {
    var s0 := Start(w);
    BlockedTurn(env, cfg, s0);
    var s1 := Turn(env, cfg, s0);
    BlockedTurn(env, cfg, s1);
    var s2 := Turn(env, cfg, s1);
    BlockedTurn(env, cfg, s2);
    assert Iterate(env, cfg, s2, 1) == Iterate(env, cfg, Turn(env, cfg, s2), 0);
    assert Iterate(env, cfg, s1, 2) == Iterate(env, cfg, s2, 1);
    assert Iterate(env, cfg, s0, 3) == Iterate(env, cfg, s1, 2);
  }

  // ---------- when the local creates conflict ----------

  predicate Unique(items: seq<Item>) {
    forall i, j :: 0 <= i < j < |items| ==> items[i].key != items[j].key && items[i].ansibleId != items[j].ansibleId
  }

  /** The transaction of a page commits exactly when the items to create have keys and ansible_ids that
      are new to the gateway and differ from each other. */
  lemma {:induction false} CreateSucceedsIff(cfg: Config, gateway: map<Key, GatewayRow>, items: seq<Item>)
    ensures CreateAll(cfg, gateway, items).Some? <==>
            Unique(items) && forall item :: item in items ==>
                item.key !in gateway && !AnsibleIdUsed(gateway, item.ansibleId)
    decreases |items|
  {
    if items != [] {
      var item, rest := items[0], items[1..];
      var g1 := gateway[item.key := GatewayRow(item.ansibleId, cfg.gatewaySid, item.data)];
      CreateSucceedsIff(cfg, g1, rest);
      assert item in items && items == [item] + rest;
      if item.key !in gateway {
        assert g1[item.key].ansibleId == item.ansibleId;
        assert forall id :: AnsibleIdUsed(g1, id) <==> id == item.ansibleId || AnsibleIdUsed(gateway, id) by {
          forall id ensures AnsibleIdUsed(g1, id) <==> id == item.ansibleId || AnsibleIdUsed(gateway, id) {
            if k :| k in gateway && gateway[k].ansibleId == id {
              assert g1[k].ansibleId == id;
            }
          }
        }
      }
    }
  }

  // ---------- the program ----------

  /** A bulk run seen from its start: what was counted and sent before comes first. */
  function Ahead(run: BulkRun, total: nat, chunks: seq<seq<Update>>): BulkRun {
    BulkRun(run.world, run.tick, if run.result.Updated? then Updated(total + run.result.count)
        else run.result, chunks + run.chunks)
  }

  lemma OneMoreChunk(env: Env, w: World, tick: nat, items: seq<Update>, total: nat, chunks: seq<seq<Update>>)
    requires items != []
    ensures var chunk := FirstChunk(items);
            var run := SendChunk(env, w, tick, chunk, 0);
            var whole := Ahead(SendBulk(env, w, tick, items), total, chunks);
            match run.result
            case Updated(n) => whole
                == Ahead(SendBulk(env, run.world, run.tick, items[|chunk|..]), total + n, chunks + [chunk])
            case Died => whole == BulkRun(run.world, run.tick, Died, chunks + [chunk])
            case _ => whole == BulkRun(run.world, run.tick, Permanent, chunks + [chunk])
  {
    var chunk := FirstChunk(items);
    var run := SendChunk(env, w, tick, chunk, 0);
    if run.result.Updated? {
      var rest := SendBulk(env, run.world, run.tick, items[|chunk|..]);
      assert chunks + ([chunk] + rest.chunks) == (chunks + [chunk]) + rest.chunks;
    }
  }

  lemma NextPrepared(cfg: Config, w: World, page: seq<nat>, i: nat, updates: seq<Update>, creates: seq<Item>)
    requires i < |page| && forall pk :: pk in page ==> pk in w.upstream
    ensures var r := Reconcile(cfg, w.gateway, w.upstream[page[i]]);
            && (updates + [r.update]) + Updates(cfg, w, page[i + 1..]) == updates + Updates(cfg, w, page[i..])
            && (creates + if r.create then [w.upstream[page[i]]] else []) + Creates(cfg, w, page[i + 1..])
               == creates + Creates(cfg, w, page[i..])
  {
    assert page[i..][1..] == page[i + 1..];
  }

  class Migrator {
    const cfg: Config
    const env: Env
    var world: World
    var tick: nat

    constructor (cfg: Config, env: Env, world: World)
      ensures this.cfg == cfg && this.env == env && this.world == world && tick == 0
    {
      this.cfg, this.env, this.world, tick := cfg, env, world, 0;
    }

    method TryOnce(chunk: seq<Update>, attempt: nat) returns (result: SendResult)
      modifies this
      ensures tick == old(tick) + 1
      ensures var r := env.reply(old(tick));
              && world == ServerApply(old(world), chunk, r.refused)
              && result == Classify(r.answer, attempt, ServerCount(old(world), chunk, r.refused))
    {
      var r := env.reply(tick);
      result := Classify(r.answer, attempt, ServerCount(world, chunk, r.refused));
      world := ServerApply(world, chunk, r.refused);
      tick := tick + 1;
    }

    /** The retry loop.  Between the tries it sleeps 1, 2, 4, ... seconds, and not after the last. */
    method SendOneChunk(chunk: seq<Update>) returns (result: SendResult, tries: nat, slept: nat)
      modifies this
      ensures ChunkRun(world, tick, result, tries, slept) == SendChunk(env, old(world), old(tick), chunk, 0)
      ensures 1 <= tries <= MAX_TRANSIENT_RETRIES && slept == Pow2(tries - 1) - 1
    {
      tries, slept := 0, 0;
      RetriesAreBounded(env, world, tick, chunk, 0);
      for attempt := 0 to MAX_TRANSIENT_RETRIES
        invariant tries == attempt && slept == Pow2(attempt) - 1
        invariant var whole, rest := SendChunk(env, old(world), old(tick), chunk, 0),
                  SendChunk(env, world, tick, chunk, attempt);
                  whole == rest.(tries := rest.tries + tries, slept := rest.slept + slept)
      {
        result := TryOnce(chunk, attempt);
        tries := tries + 1;
        if !result.Retry? {
          return;
        }
        slept := slept + Pow2(attempt);
      }
      result := FellThrough;
    }

    /** The chunking loop. */
    method SendAll(items: seq<Update>) returns (result: SendResult, chunks: seq<seq<Update>>)
      modifies this
      ensures BulkRun(world, tick, result, chunks) == SendBulk(env, old(world), old(tick), items)
    {
      var total, i := 0, 0;
      chunks := [];
      ghost var whole := SendBulk(env, world, tick, items);
      assert items[0..] == items;
      while i < |items|
        invariant 0 <= i <= |items|
        invariant whole == Ahead(SendBulk(env, world, tick, items[i..]), total, chunks)
        decreases |items| - i
      {
        var end := if i + MAX_BULK_CHUNK_SIZE <= |items| then i + MAX_BULK_CHUNK_SIZE else |items|;
        var chunk := items[i..end];
        assert chunk == FirstChunk(items[i..]) && items[i..][|chunk|..] == items[end..];
        OneMoreChunk(env, world, tick, items[i..], total, chunks);
        var tries, slept;
        result, tries, slept := SendOneChunk(chunk);
        chunks := chunks + [chunk];
        match result {
          case Updated(n) => total := total + n;
          case Died => return;
          case _ =>
            result := Permanent;
            return;
        }
        i := end;
      }
      result := Updated(total);
    }

    method PreparePage(page: seq<nat>) returns (updates: seq<Update>, creates: seq<Item>)
      requires forall pk :: pk in page ==> pk in world.upstream
      ensures updates == Updates(cfg, world, page) && creates == Creates(cfg, world, page)
    {
      var w := world;
      updates, creates := [], [];
      for i := 0 to |page|
        invariant updates + Updates(cfg, w, page[i..]) == Updates(cfg, w, page)
        invariant creates + Creates(cfg, w, page[i..]) == Creates(cfg, w, page)
      {
        var item := w.upstream[page[i]];
        var reconciled := Reconcile(cfg, w.gateway, item);
        NextPrepared(cfg, w, page, i, updates, creates);
        if reconciled.create {
          creates := creates + [item];
        }
        updates := updates + [reconciled.update];
      }
    }

    method RunPage(page: seq<nat>) returns (result: PageResult)
      requires forall pk :: pk in page ==> pk in world.upstream
      modifies this
      ensures var run := ProcessPage(env, cfg, old(world), old(tick), page);
              world == run.world && tick == run.tick && result == run.result
    {
      var updates, creates := PreparePage(page);
      match CreateAll(cfg, world.gateway, creates)
      case None => return CreateConflict;
      case Some(gateway) =>
        world := world.(gateway := gateway);
        var sent, chunks := SendAll(updates);
        match sent
        case Updated(n) => return Sent(n);
        case Died => return PageDied;
        case _ => return SendFailed;
    }

    /** The body of the `while True` loop. */
    method TakeTurn(fetches0: nat, strikes0: nat) returns (fetches: nat, strikes: nat, status: Status)
      requires ServesPages(env, cfg)
      modifies this
      ensures Loop(world, tick, strikes, fetches, status)
              == Turn(env, cfg, Loop(old(world), old(tick), strikes0, fetches0, Running))
    {
      fetches, strikes, status := fetches0 + 1, strikes0, Running;
      var listed := Listed(cfg, world);
      var page := env.page(tick, listed);
      assert IsPageOf(page, listed, cfg.pageSize);
      var results := WithoutSystem(cfg, world, page);
      if |results| == 0 {
        status := Finished;
        return;
      }
      var sent := RunPage(results);
      match sent
      case CreateConflict => status := Conflict;
      case SendFailed => status := Failed;
      case PageDied => status := Crashed;
      case Sent(n) =>
        if n == 0 {
          strikes := strikes + 1;
          if strikes >= MAX_ZERO_PROGRESS_PAGES {
            status := Stalled;
          }
        } else {
          strikes := 0;
        }
    }

    /** Ends within the fetch bound, in the state that many turns of the loop lead to. */
    method MigrateResource() returns (fetches: nat, strikes: nat, status: Status)
      requires ServesPages(env, cfg) && NoneStuck(cfg, world) && UniqueIds(world)
      modifies this
      ensures !status.Running? && fetches <= 3 * |Migratable(cfg, old(world))| + 1
      ensures Loop(world, tick, strikes, fetches, status)
           == Iterate(env, cfg, Loop(old(world), old(tick), 0, 0, Running), 3 * |Migratable(cfg, old(world))| + 1)
    {
      fetches, strikes, status := 0, 0, Running;
      ghost var s := Loop(world, tick, strikes, fetches, status);
      ghost var start, bound := s, 3 * |Migratable(cfg, world)| + 1;
      ghost var left: nat := bound;
      while status.Running?
        invariant s == Loop(world, tick, strikes, fetches, status)
        invariant status.Running? ==>
                  strikes < MAX_ZERO_PROGRESS_PAGES && NoneStuck(cfg, world) && UniqueIds(world)
                  && TurnsLeft(cfg, s) < left
        invariant fetches + left == bound
        invariant Iterate(env, cfg, start, bound) == Iterate(env, cfg, s, left)
        decreases left
      {
        TurnShrinks(env, cfg, s);
        TurnMakesProgress(env, cfg, s);
        fetches, strikes, status := TakeTurn(fetches, strikes);
        s, left := Loop(world, tick, strikes, fetches, status), left - 1;
      }
    }
  }
}
