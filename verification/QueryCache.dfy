/**
  The cache of remote query results, keyed by the generation of the mapping table.

  A query computes its key, looks into the cache, and asks the remote side when there is nothing; its answer
  is stored under the key computed before.  Other queries and transactions on the tables may come between.
 */
module QueryCache {
  import opened Options
  import opened Text
  import opened Attribution
  import opened Effects
  import Rag = RagProjection
  import Outbox

  const CAPACITY: nat := 256

  /** The settings of a query, its generation, and its question. */
  datatype Key = Key(settings: string, generation: nat, limit: int, question: string)

  datatype Entry = Entry(at: int, hits: seq<string>)

  type Cache = map<Key, Entry>

  function QueryCacheKey(st: State, settings: string, question: string, limit: int): Key {
    Key(settings, st.generation, limit, Strip(question))
  }

  predicate Expired(entry: Entry, ttl: int, now: int) {
    now - entry.at > ttl
  }

  function Found(cache: Cache, key: Key, ttl: int, now: int): Option<seq<string>> {
    if ttl <= 0 || key !in cache || Expired(cache[key], ttl, now) then None else Some(cache[key].hits)
  }

  function Looked(cache: Cache, key: Key, ttl: int, now: int): Cache {
    if ttl > 0 && key in cache && Expired(cache[key], ttl, now) then cache - {key} else cache
  }

  predicate Oldest(cache: Cache, victim: Key) {
    victim in cache && forall k :: k in cache ==> cache[victim].at <= cache[k].at
  }

  /** Stores an entry; when there are too many, `victim` goes. */
  function Stored(cache: Cache, key: Key, hits: seq<string>, now: int, victim: Key): Cache {
    var more := cache[key := Entry(now, hits)];
    if |more| > CAPACITY then more - {victim} else more
  }

  // ---------- Queries and transactions interleaved ----------

  /** What a query asks, with the mapping table as it was when its key was computed. */
  datatype Request = Request(settings: string, question: string, limit: int, seen: Mappings)

  /** A query in progress. */
  datatype Query = Keyed(key: Key, request: Request) | Asking(key: Key, request: Request)

  /** What an entry comes from: the request that was answered, its answer, and when. */
  datatype Origin = Origin(request: Request, hits: seq<string>, at: int)

  /** The system; `origins` records for each entry what it comes from. */
  datatype World = World(st: State, cache: Cache, origins: map<Key, Origin>, queries: map<string, Query>)

  datatype Event =
    | TableEvent(step: Attribution.Step)
    | ComputeKey(query: string, settings: string, question: string, limit: int)
    | Look(query: string, ttl: int, now: int)
    | Answer(query: string, hits: seq<string>, now: int, victim: Key)

  predicate Enabled(w: World, e: Event) {
    match e
    case TableEvent(_) => true
    case ComputeKey(query, _, _, _) => query !in w.queries
    case Look(query, _, _) => query in w.queries && w.queries[query].Keyed?
    case Answer(query, hits, now, victim) =>
      query in w.queries && w.queries[query].Asking?
        && Oldest(w.cache[w.queries[query].key := Entry(now, hits)], victim)
  }

  function Happen(w: World, e: Event): World {
    if !Enabled(w, e) then w
    else
      match e
      case TableEvent(step) => w.(st := Attribution.Apply(w.st, step))
      case ComputeKey(query, settings, question, limit) =>
        var request := Request(settings, question, limit, w.st.mappings);
        w.(queries := w.queries[query := Keyed(QueryCacheKey(w.st, settings, question, limit), request)])
      case Look(query, ttl, now) =>
        var q := w.queries[query];
        w.(cache := Looked(w.cache, q.key, ttl, now),
           queries := if Found(w.cache, q.key, ttl, now).Some? then w.queries - {query}
                      else w.queries[query := Asking(q.key, q.request)])
      case Answer(query, hits, now, victim) =>
        var q := w.queries[query];
        if hits == [] then w.(queries := w.queries - {query})
        else
          w.(cache := Stored(w.cache, q.key, hits, now, victim),
             origins := w.origins[q.key := Origin(q.request, hits, now)],
             queries := w.queries - {query})
  }

  function Course(w: World, events: seq<Event>): World
    decreases |events|
  {
    if events == [] then w else Course(Happen(w, events[0]), events[1..])
  }

  /** `tables` gives the mapping table at each generation so far. */
  ghost predicate Chronicle(st: State, tables: map<nat, Mappings>) {
    && st.generation in tables && tables[st.generation] == st.mappings
    && forall g :: g in tables ==> g <= st.generation
  }

  predicate SeenAt(tables: map<nat, Mappings>, generation: nat, seen: Mappings) {
    generation in tables && tables[generation] == seen
  }

  /** The key has all that the request has, the question without the space around it. */
  predicate IsKeyOf(key: Key, request: Request, tables: map<nat, Mappings>) {
    && key.settings == request.settings && key.limit == request.limit && key.question == Strip(request.question)
    && SeenAt(tables, key.generation, request.seen)
  }

  ghost predicate GoodOrigins(origins: map<Key, Origin>, tables: map<nat, Mappings>) {
    forall k :: k in origins ==> IsKeyOf(k, origins[k].request, tables)
  }

  ghost predicate Backed(cache: Cache, origins: map<Key, Origin>) {
    forall k :: k in cache ==> k in origins && cache[k] == Entry(origins[k].at, origins[k].hits)
  }

  /** All that was seen at one generation is the same table, and an entry is what its origin was answered. */
  ghost predicate Good(w: World, tables: map<nat, Mappings>) {
    && Unique(w.st.mappings) && Chronicle(w.st, tables)
    && (forall q :: q in w.queries ==> IsKeyOf(w.queries[q].key, w.queries[q].request, tables))
    && GoodOrigins(w.origins, tables) && Backed(w.cache, w.origins) && |w.cache| <= CAPACITY
  }

  lemma TableEventKeepsGood(w: World, step: Attribution.Step, tables: map<nat, Mappings>)
      returns (more: map<nat, Mappings>)
    requires Good(w, tables)
    ensures Good(w.(st := Attribution.Apply(w.st, step)), more)
  {
    StepKeepsMappings(w.st, step);
    var after := Attribution.Apply(w.st, step);
    more := tables[after.generation := after.mappings];
  }

  lemma StoredIsBounded(cache: Cache, key: Key, hits: seq<string>, now: int, victim: Key)
    requires |cache| <= CAPACITY && Oldest(cache[key := Entry(now, hits)], victim)
    ensures var after := Stored(cache, key, hits, now, victim);
            && |after| <= CAPACITY
            && forall k :: k in after ==>
                 if k == key then after[k] == Entry(now, hits) else k in cache && after[k] == cache[k]
  {
    var more := cache[key := Entry(now, hits)];
    assert more.Keys == cache.Keys + {key};
    assert (more - {victim}).Keys == more.Keys - {victim};
    assert |more| == |more.Keys| && |more - {victim}| == |(more - {victim}).Keys|;
    assert |cache| == |cache.Keys|;
  }

  lemma LookedIsSmaller(cache: Cache, key: Key, ttl: int, now: int)
    ensures var after := Looked(cache, key, ttl, now);
            |after| <= |cache| && forall k :: k in after ==> k in cache && after[k] == cache[k]
  {
    assert (cache - {key}).Keys == cache.Keys - {key};
    assert |cache| == |cache.Keys| && |cache - {key}| == |(cache - {key}).Keys|;
  }

  lemma NewEntryKeepsGood(
      w: World, query: string, cache: Cache, hits: seq<string>, now: int, tables: map<nat, Mappings>)
    requires Good(w, tables) && query in w.queries && |cache| <= CAPACITY
    requires forall k :: k in cache ==>
               if k == w.queries[query].key then cache[k] == Entry(now, hits)
               else k in w.cache && cache[k] == w.cache[k]
    ensures var q := w.queries[query];
            Good(World(w.st, cache, w.origins[q.key := Origin(q.request, hits, now)], w.queries - {query}), tables)
  {
    var q := w.queries[query];
    var origin := Origin(q.request, hits, now);
    NewOriginIsGood(w.origins, q.key, origin, tables);
    NewEntryIsBacked(w.cache, cache, w.origins, q.key, origin);
  }

  lemma NewOriginIsGood(origins: map<Key, Origin>, key: Key, origin: Origin, tables: map<nat, Mappings>)
    requires GoodOrigins(origins, tables) && IsKeyOf(key, origin.request, tables)
    ensures GoodOrigins(origins[key := origin], tables)
  {
  }

  lemma NewEntryIsBacked(before: Cache, cache: Cache, origins: map<Key, Origin>, key: Key, origin: Origin)
    requires Backed(before, origins)
    requires forall k :: k in cache ==>
               if k == key then cache[k] == Entry(origin.at, origin.hits) else k in before && cache[k] == before[k]
    ensures Backed(cache, origins[key := origin])
  {
  }

  lemma AnswerKeepsGood(w: World, e: Event, tables: map<nat, Mappings>)
    requires Good(w, tables) && e.Answer? && Enabled(w, e)
    ensures Good(Happen(w, e), tables)
  {
    var key := w.queries[e.query].key;
    if e.hits != [] {
      StoredIsBounded(w.cache, key, e.hits, e.now, e.victim);
      NewEntryKeepsGood(w, e.query, Stored(w.cache, key, e.hits, e.now, e.victim), e.hits, e.now, tables);
    }
  }

  lemma LookKeepsGood(w: World, e: Event, tables: map<nat, Mappings>)
    requires Good(w, tables) && e.Look? && Enabled(w, e)
    ensures Good(Happen(w, e), tables)
  {
    LookedIsSmaller(w.cache, w.queries[e.query].key, e.ttl, e.now);
  }

  lemma HappenKeepsGood(w: World, e: Event, tables: map<nat, Mappings>) returns (more: map<nat, Mappings>)
    requires Good(w, tables)
    ensures Good(Happen(w, e), more)
  {
    more := tables;
    if Enabled(w, e) {
      match e
      case TableEvent(step) => more := TableEventKeepsGood(w, step, tables);
      case Answer(_, _, _, _) => AnswerKeepsGood(w, e, tables);
      case Look(_, _, _) => LookKeepsGood(w, e, tables);
      case ComputeKey(_, _, _, _) =>
    }
  }

  lemma {:induction false} CourseKeepsGood(w: World, events: seq<Event>, tables: map<nat, Mappings>)
      returns (more: map<nat, Mappings>)
    requires Good(w, tables)
    ensures Good(Course(w, events), more)
    decreases |events|
  {
    if events == [] {
      more := tables;
    } else {
      more := HappenKeepsGood(w, events[0], tables);
      more := CourseKeepsGood(Happen(w, events[0]), events[1..], more);
    }
  }

  lemma FromStart(st: State, events: seq<Event>) returns (tables: map<nat, Mappings>)
    requires Unique(st.mappings)
    ensures Good(Course(World(st, map[], map[], map[]), events), tables)
  {
    tables := CourseKeepsGood(World(st, map[], map[], map[]), events, map[st.generation := st.mappings]);
  }

  predicate Served(w: World, query: string, ttl: int, now: int) {
    query in w.queries && w.queries[query].Keyed? && Found(w.cache, w.queries[query].key, ttl, now).Some?
  }

  /**
    In every run, a query that is served from the cache computed its key on the same mapping table as the
    query that stored the entry.  If the generation has not moved since then, it is the present table.
   */
  lemma ServedFromSameTable(st: State, events: seq<Event>, query: string, ttl: int, now: int)
    requires Unique(st.mappings)
    requires Served(Course(World(st, map[], map[], map[]), events), query, ttl, now)
    ensures var w := Course(World(st, map[], map[], map[]), events);
            var q := w.queries[query];
            && q.key in w.origins && q.request.seen == w.origins[q.key].request.seen
            && (w.st.generation == q.key.generation ==> w.st.mappings == w.origins[q.key].request.seen)
  {
    var tables := FromStart(st, events);
  }

  /** The two texts are the same but for space around them. */
  ghost predicate SameButSpace(a: string, b: string) {
    exists core :: IsCore(a, core) && IsCore(b, core)
  }

  lemma SameStrip(a: string, b: string)
    ensures SameButSpace(a, b) <==> Strip(a) == Strip(b)
  {
    StripIsCore(a, Strip(a));
    StripIsCore(b, Strip(b));
    if SameButSpace(a, b) {
      var core :| IsCore(a, core) && IsCore(b, core);
      StripIsCore(a, core);
      StripIsCore(b, core);
    }
  }

  /** Two queries have the same key exactly if they ask the same, but for space, under one generation. */
  lemma KeysTellQueries(
      st: State, settings: string, question: string, limit: int, st': State, settings': string, question': string,
      limit': int)
    ensures QueryCacheKey(st, settings, question, limit) == QueryCacheKey(st', settings', question', limit')
            <==> settings == settings' && limit == limit' && st.generation == st'.generation
                 && SameButSpace(question, question')
  {
    SameStrip(question, question');
  }

  /** In the events the query asked so. */
  predicate IsAsked(events: seq<Event>, n: nat, query: string, request: Request)
    requires n <= |events|
  {
    exists j :: 0 <= j < n && events[j] == ComputeKey(query, request.settings, request.question, request.limit)
  }

  /** In the events some query asked so and was then answered so. */
  ghost predicate IsAnswered(events: seq<Event>, origin: Origin) {
    exists i :: 0 <= i < |events| && events[i].Answer? && events[i].hits == origin.hits && events[i].now == origin.at
                && IsAsked(events, i, events[i].query, origin.request)
  }

  lemma {:induction false} OriginsAreAnswers(start: World, events: seq<Event>)
    requires start.queries == map[] && start.origins == map[]
    ensures var w := Course(start, events);
            && (forall q :: q in w.queries ==> IsAsked(events, |events|, q, w.queries[q].request))
            && (forall k :: k in w.origins ==> IsAnswered(events, w.origins[k]))
  {
    if events != [] {
      var last := |events| - 1;
      OriginsAreAnswers(start, events[..last]);
      assert events == events[..last] + [events[last]] && [events[last]][1..] == [];
      CourseOfTwo(start, events[..last], [events[last]]);
      var before := Course(start, events[..last]);
      assert Course(before, [events[last]]) == Course(Happen(before, events[last]), []);
      OneMoreEvent(before, events);
    }
  }

  lemma OneMoreEvent(before: World, events: seq<Event>)
    requires events != []
    requires forall q :: q in before.queries ==>
               IsAsked(events[..|events| - 1], |events| - 1, q, before.queries[q].request)
    requires forall k :: k in before.origins ==> IsAnswered(events[..|events| - 1], before.origins[k])
    ensures var w := Happen(before, events[|events| - 1]);
            && (forall q :: q in w.queries ==> IsAsked(events, |events|, q, w.queries[q].request))
            && (forall k :: k in w.origins ==> IsAnswered(events, w.origins[k]))
  {
    var last := |events| - 1;
    var front, w := events[..last], Happen(before, events[last]);
    forall q | q in w.queries ensures IsAsked(events, |events|, q, w.queries[q].request) {
      QueryComesFrom(before, events[last], q);
      if q in before.queries && w.queries[q].request == before.queries[q].request {
        AskedBefore(events, q, w.queries[q].request);
      }
    }
    forall k | k in w.origins ensures IsAnswered(events, w.origins[k]) {
      OriginComesFrom(before, events[last], k);
      if k in before.origins && w.origins[k] == before.origins[k] {
        AnsweredBefore(events, w.origins[k]);
      } else {
        AskedBefore(events, events[last].query, w.origins[k].request);
      }
    }
  }

  lemma QueryComesFrom(w: World, e: Event, query: string)
    requires query in Happen(w, e).queries
    ensures var request := Happen(w, e).queries[query].request;
            || (query in w.queries && request == w.queries[query].request)
            || e == ComputeKey(query, request.settings, request.question, request.limit)
  {
  }

  lemma OriginComesFrom(w: World, e: Event, key: Key)
    requires key in Happen(w, e).origins
    ensures var origin := Happen(w, e).origins[key];
            || (key in w.origins && origin == w.origins[key])
            || (e.Answer? && e.query in w.queries && origin == Origin(w.queries[e.query].request, e.hits, e.now))
  {
  }

  lemma AskedBefore(events: seq<Event>, query: string, request: Request)
    requires events != [] && IsAsked(events[..|events| - 1], |events| - 1, query, request)
    ensures IsAsked(events, |events| - 1, query, request) && IsAsked(events, |events|, query, request)
  {
    var front := events[..|events| - 1];
    var j :| 0 <= j < |front|
             && front[j] == ComputeKey(query, request.settings, request.question, request.limit);
    assert events[j] == front[j];
  }

  lemma AnsweredBefore(events: seq<Event>, origin: Origin)
    requires events != [] && IsAnswered(events[..|events| - 1], origin)
    ensures IsAnswered(events, origin)
  {
    var front := events[..|events| - 1];
    var i :| 0 <= i < |front| && front[i].Answer? && front[i].hits == origin.hits && front[i].now == origin.at
             && IsAsked(front, i, front[i].query, origin.request);
    var j :| 0 <= j < i && front[j] == ComputeKey(front[i].query, origin.request.settings, origin.request.question,
                                                 origin.request.limit);
    assert events[j] == front[j] && events[i] == front[i];
  }

  /**
    In every run, a query that is served from the cache gets the answer to a query that asked the same, but for
    space around the question, with the same settings and limit, and that is no older than the time to live.
   */
  lemma ServedAnswersTheQuestion(st: State, events: seq<Event>, query: string, ttl: int, now: int)
      returns (origin: Origin)
    requires Unique(st.mappings)
    requires Served(Course(World(st, map[], map[], map[]), events), query, ttl, now)
    ensures var w := Course(World(st, map[], map[], map[]), events);
            var asked := w.queries[query].request;
            && Found(w.cache, w.queries[query].key, ttl, now) == Some(origin.hits)
            && IsAsked(events, |events|, query, asked) && IsAnswered(events, origin)
            && origin.request.settings == asked.settings && origin.request.limit == asked.limit
            && SameButSpace(origin.request.question, asked.question) && origin.request.seen == asked.seen
            && 0 < ttl && now - origin.at <= ttl
  {
    var start := World(st, map[], map[], map[]);
    var w := Course(start, events);
    var tables := FromStart(st, events);
    OriginsAreAnswers(start, events);
    origin := w.origins[w.queries[query].key];
    SameStrip(origin.request.question, w.queries[query].request.question);
  }

  /** The cache never has more than its capacity. */
  lemma CacheIsBounded(st: State, events: seq<Event>)
    requires Unique(st.mappings)
    ensures |Course(World(st, map[], map[], map[]), events).cache| <= CAPACITY
  {
    var tables := FromStart(st, events);
  }

  const FIRST_QUERY := ComputeKey("a", "", "", 1)
  const SECOND_QUERY := ComputeKey("b", "", "", 1)

  function FirstKey(st: State): Key {
    QueryCacheKey(st, "", "", 1)
  }

  function FirstRequest(st: State): Request {
    Request("", "", 1, st.mappings)
  }

  function FirstOrigin(st: State, hits: seq<string>): Origin {
    Origin(FirstRequest(st), hits, 0)
  }

  lemma FirstAnswer(st: State, hits: seq<string>)
    requires hits != []
    ensures var key := FirstKey(st);
            Course(World(st, map[], map[], map[]), [FIRST_QUERY, Look("a", 60, 0), Answer("a", hits, 0, key)])
            == World(st, map[key := Entry(0, hits)], map[key := FirstOrigin(st, hits)], map[])
  {
    var key, start := FirstKey(st), World(st, map[], map[], map[]);
    var ask, answer := Look("a", 60, 0), Answer("a", hits, 0, key);
    var keyed := start.(queries := map["a" := Keyed(key, FirstRequest(st))]);
    var asking := start.(queries := map["a" := Asking(key, FirstRequest(st))]);
    assert Happen(start, FIRST_QUERY) == keyed;
    assert Happen(keyed, ask) == asking;
    AnswerIsStored(st, hits);
    assert [FIRST_QUERY, ask, answer][1..] == [ask, answer] && [ask, answer][1..] == [answer] && [answer][1..] == [];
    assert Course(asking, [answer]) == Course(Happen(asking, answer), []);
  }

  lemma AnswerIsStored(st: State, hits: seq<string>)
    requires hits != []
    ensures var key := FirstKey(st);
            Happen(World(st, map[], map[], map["a" := Asking(key, FirstRequest(st))]), Answer("a", hits, 0, key))
            == World(st, map[key := Entry(0, hits)], map[key := FirstOrigin(st, hits)], map[])
  {
    StoredIsBounded(map[], FirstKey(st), hits, 0, FirstKey(st));
  }

  lemma {:induction false} CourseOfTwo(w: World, a: seq<Event>, b: seq<Event>)
    ensures Course(w, a + b) == Course(Course(w, a), b)
    decreases |a|
  {
    if a == [] {
      assert a + b == b;
    } else {
      assert (a + b)[1..] == a[1..] + b;
      CourseOfTwo(Happen(w, a[0]), a[1..], b);
    }
  }

  /**
    A run in which a transaction comes between computing the key of a query and serving it from the cache.
   */
  lemma ServedAfterStep(st: State, step: Attribution.Step, hits: seq<string>) returns (events: seq<Event>)
    requires hits != []
    ensures var w := Course(World(st, map[], map[], map[]), events);
            && Served(w, "b", 60, 1) && w.st == Attribution.Apply(st, step)
            && w.queries["b"].key == FirstKey(st) && FirstKey(st) in w.origins
            && w.origins[FirstKey(st)].request.seen == st.mappings
  {
    var key, start := FirstKey(st), World(st, map[], map[], map[]);
    var first := [FIRST_QUERY, Look("a", 60, 0), Answer("a", hits, 0, key)];
    var change := TableEvent(step);
    events := first + [SECOND_QUERY, change];
    FirstAnswer(st, hits);
    CourseOfTwo(start, first, [SECOND_QUERY, change]);
    var stored := World(st, map[key := Entry(0, hits)], map[key := FirstOrigin(st, hits)], map[]);
    var keyed := Happen(stored, SECOND_QUERY);
    var moved := Happen(keyed, change);
    assert [SECOND_QUERY, change][1..] == [change] && [change][1..] == [];
    assert Course(keyed, [change]) == Course(moved, []) == moved;
    assert keyed.queries["b"] == Keyed(key, FirstRequest(st));
  }

  /** When the query is served the table may already be another one. */
  lemma ServedTableMayHaveMoved(st: State, step: Attribution.Step, hits: seq<string>) returns (events: seq<Event>)
    requires Attribution.Apply(st, step).mappings != st.mappings && hits != []
    ensures var w := Course(World(st, map[], map[], map[]), events);
            && Served(w, "b", 60, 1)
            && w.queries["b"].key in w.origins && w.st.mappings != w.origins[w.queries["b"].key].request.seen
  {
    events := ServedAfterStep(st, step, hits);
  }

  /** And the generation may have moved while the table is the same: here a mapping is written again. */
  lemma GenerationMayMoveAlone(hits: seq<string>) returns (st: State, events: seq<Event>)
    requires hits != []
    ensures Unique(st.mappings)
    ensures var w := Course(World(st, map[], map[], map[]), events);
            && Served(w, "b", 60, 1) && w.queries["b"].key in w.origins
            && w.st.generation != w.queries["b"].key.generation
            && w.st.mappings == w.origins[w.queries["b"].key].request.seen
  {
    var step;
    st, step := WrittenAgain();
    events := ServedAfterStep(st, step, hits);
  }

  lemma WrittenAgain() returns (st: State, step: Attribution.Step)
    ensures Unique(st.mappings) && Attribution.Apply(st, step).mappings == st.mappings
    ensures Attribution.Apply(st, step).generation == st.generation + 1
  {
    var page := Page("wiki/a", Rag.Active, Some("r"), 1, Some("f"), Some("s"));
    var expected := ExpectedPage("p", "r", 1, "a", "f");
    var result := PageResult("source", Some("slug"), "a", Some("c"), Some(1), [], false, "");
    var call := Call("b", "s", "w", "source", "n", "j", 1);
    var row := NewRow(call, page, expected, result, "b");
    st := State(map["m" := row], 0, map["p" := page], map[], map["b" := Batch(Some("w"), map["s" := "w"], [])], []);
    step := PageSuccessStep(call, expected, result);
    assert MemberJobs(st, call, "p") == [];
    RewritingKeepsTable(st, call, page, expected, result);
  }

  /** Attributing the same result again at the same time: the mapping is written as it was. */
  lemma RewritingKeepsTable(st: State, call: Call, page: Page, expected: ExpectedPage, result: PageResult)
    requires Runs(st, call) && MemberJobs(st, call, expected.page) == [] && result.protected == []
    requires PageOf(st, expected.page) == Some(page) && MatchesExpected(Some(page), expected) && Identified(result)
    requires st.mappings == map["m" := NewRow(call, page, expected, result, call.batch)] && call.newMapping != "m"
    ensures PageSuccess(st, call, expected, result).Some?
    ensures var after := PageSuccess(st, call, expected, result).value;
            after.mappings == st.mappings && after.generation == st.generation + 1
  {
    OwnedIsAttributed(st, call, expected, result);
    assert WithProtections(st, expected, result) == st;
    assert PageBranch(st, [], call.source, expected, result) == Written;
    SameRowAgain(NewRow(call, page, expected, result, call.batch), call.newMapping, call.now);
    WrittenWithoutJobs(st, call, page, expected, result);
  }

  lemma WrittenWithoutJobs(st: State, call: Call, page: Page, expected: ExpectedPage, result: PageResult)
    requires Identified(result) && call.newMapping !in st.mappings
    requires var row := NewRow(call, page, expected, result, call.batch);
             st.mappings
             == Upsert(StaleOthers(st.mappings, call.source, row.page, row.slug, call.now), call.newMapping, row)
    ensures WriteMapping(st, call, [], page, expected, result).Some?
    ensures var after := WriteMapping(st, call, [], page, expected, result).value;
            after.mappings == st.mappings && after.generation == st.generation + 1
  {
    assert FinishAll(st.jobs, [], 0, call.worker, Outbox.Succeeded) == Some(st.jobs);
    StaleOthersKeepSlots(st.mappings, call.source, expected.page, result.slug.value, call.now);
  }

  lemma SameRowAgain(row: Mapping, newId: string, now: int)
    requires row.status == Current
    ensures var mappings := map["m" := row];
            && SlotTaken(StaleOthers(mappings, row.source, row.page, row.slug, now), row.source, row.slug)
            && Upsert(StaleOthers(mappings, row.source, row.page, row.slug, now), newId, row) == mappings
  {
    var mappings := map["m" := row];
    var others := StaleOthers(mappings, row.source, row.page, row.slug, now);
    assert others == mappings;
    assert InSlot(others["m"], row.source, row.slug);
  }

  // ---------- The cache itself ----------

  class ResultCache {
    var cache: Cache

    constructor ()
      ensures cache == map[]
    {
      cache := map[];
    }

    method GetCachedQuery(key: Key, ttl: int, now: int) returns (hits: Option<seq<string>>)
      modifies this
      ensures hits == Found(old(cache), key, ttl, now) && cache == Looked(old(cache), key, ttl, now)
      ensures hits.Some? <==> 0 < ttl && key in old(cache) && now - old(cache)[key].at <= ttl
      ensures hits.Some? ==> hits.value == old(cache)[key].hits && cache == old(cache)
      ensures hits.None? ==> cache == old(cache) || cache == old(cache) - {key}
    {
      if ttl <= 0 || key !in cache {
        return None;
      }
      if now - cache[key].at > ttl {
        cache := cache - {key};
        return None;
      }
      return Some(cache[key].hits);
    }

    method SetCachedQuery(key: Key, hits: seq<string>, now: int)
      modifies this
      ensures exists victim :: Oldest(old(cache)[key := Entry(now, hits)], victim)
                               && cache == Stored(old(cache), key, hits, now, victim)
      ensures var more := old(cache)[key := Entry(now, hits)];
              if |more| <= 256 then cache == more
              else exists oldest :: oldest in more && cache == more - {oldest}
                                    && forall k :: k in more ==> more[oldest].at <= more[k].at
    {
      cache := cache[key := Entry(now, hits)];
      assert key in cache;
      var oldest := OldestKey(cache);
      if |cache| > CAPACITY {
        cache := cache - {oldest};
      }
      assert cache == Stored(old(cache), key, hits, now, oldest);
    }
  }

  method OldestKey(cache: Cache) returns (oldest: Key)
    requires cache.Keys != {}
    ensures Oldest(cache, oldest)
  {
    var left := cache.Keys;
    oldest :| oldest in left;
    while left != {}
      invariant oldest in cache && left <= cache.Keys
      invariant forall k :: k in cache && k !in left ==> cache[oldest].at <= cache[k].at
    {
      var key :| key in left;
      if cache[key].at < cache[oldest].at {
        oldest := key;
      }
      left := left - {key};
    }
  }
}
