/**
  Evidence for an answer: search hits are mapped to citations, and citations are checked again later.

  The mapping and the second check are written apart and read the same tables.  Both decide from the rows
  as they are; the second sees only the citations.
 */
module Citations {
  import opened Options
  import opened Text
  import opened Lists

  // ---------- The tables ----------

  datatype User = User(id: string, name: string, isAdmin: bool, aclTags: set<string>)

  datatype Metadata = Metadata(aclTags: set<string>, owner: Option<string>)

  /** A source; its metadata is None when it is not a readable object. */
  datatype Source = Source(status: string, metadata: Option<Metadata>, owner: Option<string>)

  datatype Page = Page(
    id: Option<string>,
    path: string,
    lifecycle: string,
    currentRevision: Option<string>,
    epoch: nat,
    visibleRevision: Option<string>,
    visibleEpoch: Option<int>
  )

  /** A revision; its source ids are None when they are not a readable list. */
  datatype Revision = Revision(page: string, sourceIds: Option<seq<string>>)

  datatype Mapping = Mapping(
    namespace: string,
    slug: string,
    page: string,
    revision: string,
    epoch: int,
    pagePath: string,
    sourcePath: string,
    contentHash: string,
    generation: int,
    status: string
  )

  datatype Tables = Tables(
    sources: map<string, Source>,
    pages: seq<Page>,
    revisions: map<string, Revision>,
    mappings: seq<Mapping>
  )

  // ---------- Hits and citations ----------

  datatype Origin = Document | Wiki | GBrain

  datatype Citation = Citation(
    source: string,
    wikiPage: Option<string>,
    snippet: string,
    page: Option<string>,
    revision: Option<string>,
    chunk: Option<string>,
    origin: Option<Origin>
  )

  datatype GBrainHit = GBrainHit(
    snippet: string,
    namespace: Option<string>,
    slug: string,
    contentHash: Option<string>,
    generation: Option<int>,
    sourcePath: Option<string>,
    chunk: Option<string>
  )

  datatype LocalHit = LocalHit(
    origin: Option<string>,
    snippet: Option<string>,
    text: Option<string>,
    source: Option<string>,
    page: Option<string>,
    revision: Option<string>,
    epoch: Option<int>,
    pagePath: Option<string>,
    wikiPage: Option<string>,
    id: Option<string>,
    chunk: Option<string>
  )

  datatype Hit = Remote(gbrain: GBrainHit) | Local(local: LocalHit)

  datatype Diagnostic = Mapped | Stale | Unauthorized | Unmapped

  datatype Evidence = Evidence(citations: seq<Citation>, diagnostic: Diagnostic)

  function Rejected(diagnostic: Diagnostic): Evidence {
    Evidence([], diagnostic)
  }

  // ---------- Reading the tables ----------

  predicate CanRead(metadata: Metadata, user: Option<User>, owner: Option<string>) {
    || user.None? || user.value.isAdmin
    || metadata.aclTags == {} || "public" in metadata.aclTags || metadata.aclTags * user.value.aclTags != {}
    || IsUser(user.value, owner) || IsUser(user.value, metadata.owner)
  }

  predicate IsUser(user: User, owner: Option<string>) {
    owner.Some? && owner.value != "" && (owner.value == user.id || owner.value == user.name)
  }

  predicate SourceReadable(t: Tables, user: Option<User>, id: string) {
    && id in t.sources && t.sources[id].status == "active" && t.sources[id].metadata.Some?
    && CanRead(t.sources[id].metadata.value, user, t.sources[id].owner)
  }

  /** There is a source to read, and the user may read them all. */
  predicate Readable(t: Tables, user: Option<User>, ids: seq<string>) {
    NonEmpty(ids) != [] && forall id :: id in NonEmpty(ids) ==> SourceReadable(t, user, id)
  }

  method AllSourcesReadable(t: Tables, user: Option<User>, ids: seq<string>) returns (readable: bool)
    ensures readable <==> Readable(t, user, ids)
  {
    var unique := Distinct(NonEmpty(ids));
    if unique == [] {
      return false;
    }
    assert unique[0] in NonEmpty(ids);
    for i := 0 to |unique|
      invariant forall j :: 0 <= j < i ==> SourceReadable(t, user, unique[j])
    {
      var id := unique[i];
      assert id in unique && id in NonEmpty(ids);
      if id !in t.sources || t.sources[id].status != "active" {
        return false;
      }
      if t.sources[id].metadata.None? || !CanRead(t.sources[id].metadata.value, user, t.sources[id].owner) {
        return false;
      }
    }
    return true;
  }

  function PagesWith(pages: seq<Page>, id: string): (found: seq<Page>)
    ensures forall page :: page in found ==> page in pages && page.id == Some(id)
  {
    if pages == [] then []
    else PagesWith(pages[..|pages| - 1], id) + if pages[|pages| - 1].id == Some(id) then [pages[|pages| - 1]] else []
  }

  function MappingsWith(mappings: seq<Mapping>, namespace: string, slug: string): (found: seq<Mapping>)
    ensures forall mapping :: mapping in found ==> mapping in mappings
  {
    if mappings == [] then []
    else
      var last := mappings[|mappings| - 1];
      MappingsWith(mappings[..|mappings| - 1], namespace, slug)
      + if last.namespace == namespace && last.slug == slug then [last] else []
  }

  function RevisionSources(t: Tables, page: string, revision: string): Option<seq<string>> {
    if revision !in t.revisions || t.revisions[revision].page != page then None
    else
      match t.revisions[revision].sourceIds
      case None => None
      case Some(ids) => Some(Distinct(NonEmpty(ids)))
  }

  // ---------- Mapping hits to citations ----------

  function NonEmptyString(value: Option<string>): Option<string> {
    match value
    case None => None
    case Some(text) => if Strip(text) == "" then None else Some(Strip(text))
  }

  function Or(first: Option<string>, second: Option<string>): Option<string> {
    if first.Some? && first.value != "" then first else second
  }

  function OrElse(first: Option<string>, second: string): string {
    if first.Some? && first.value != "" then first.value else second
  }

  function OrMinusOne(n: int): int {
    if n == 0 then -1 else n
  }

  predicate MappingIsCurrent(mapping: Mapping, page: Page) {
    && page.lifecycle == "active"
    && page.currentRevision == Some(mapping.revision)
    && page.epoch == OrMinusOne(mapping.epoch)
    && page.path == mapping.pagePath
  }

  predicate WikiHitIsCurrent(page: Page, revision: string, epoch: int) {
    && page.lifecycle == "active"
    && page.currentRevision == Some(revision)
    && page.visibleRevision == Some(revision)
    && page.epoch == epoch
    && (match page.visibleEpoch case None => -1 case Some(n) => OrMinusOne(n)) == epoch
  }

  function Cite(ids: seq<string>, like: Citation): (citations: seq<Citation>)
    ensures |citations| == |ids| && forall i :: 0 <= i < |ids| ==> citations[i] == like.(source := ids[i])
  {
    seq(|ids|, i requires 0 <= i < |ids| => like.(source := ids[i]))
  }

  function MapGBrainHit(t: Tables, user: Option<User>, hit: GBrainHit): Evidence {
    var snippet := Strip(hit.snippet);
    var namespace := match hit.namespace case None => "" case Some(text) => Strip(text);
    var slug := Strip(hit.slug);
    var sourcePath := NonEmptyString(hit.sourcePath);
    if snippet == "" || namespace == "" || slug == "" then Rejected(Unmapped)
    else
      var mappings := MappingsWith(t.mappings, namespace, slug);
      if |mappings| != 1 then Rejected(Unmapped)
      else
        var mapping := mappings[0];
        if mapping.status != "current" then Rejected(Stale)
        else if hit.contentHash == None || hit.contentHash == Some("")
          || hit.contentHash != Some(mapping.contentHash) then
          Rejected(Stale)
        else if hit.generation != Some(mapping.generation) then Rejected(Stale)
        else if sourcePath != Some(mapping.sourcePath) then Rejected(Stale)
        else
          var pages := PagesWith(t.pages, mapping.page);
          if |pages| != 1 || !MappingIsCurrent(mapping, pages[0]) then Rejected(Stale)
          else
            var sources := RevisionSources(t, mapping.page, mapping.revision);
            if sources.None? || !Readable(t, user, sources.value) then Rejected(Unauthorized)
            else
              Evidence(Cite(sources.value,
                            Citation("", Some(pages[0].path), snippet, Some(mapping.page), Some(mapping.revision),
                                     hit.chunk, Some(GBrain))),
                       Mapped)
  }

  function MapWikiHit(t: Tables, user: Option<User>, hit: LocalHit, snippet: string): Evidence {
    match (NonEmptyString(hit.page), NonEmptyString(hit.revision), hit.epoch)
    case (Some(id), Some(revision), Some(epoch)) =>
      var pages := PagesWith(t.pages, id);
      var path := NonEmptyString(hit.pagePath);
      if |pages| != 1 || !WikiHitIsCurrent(pages[0], revision, epoch) then Rejected(Stale)
      else if path.Some? && path.value != pages[0].path then Rejected(Stale)
      else
        var sources := RevisionSources(t, id, revision);
        if sources.None? || !Readable(t, user, sources.value) then Rejected(Unauthorized)
        else
          Evidence(Cite(sources.value,
                        Citation("", Some(pages[0].path), snippet, Some(id), Some(revision),
                                 NonEmptyString(Or(hit.id, hit.chunk)), Some(Wiki))),
                   Mapped)
    case _ => Rejected(Unmapped)
  }

  function MapDocumentHit(t: Tables, user: Option<User>, hit: LocalHit, snippet: string): Evidence {
    match NonEmptyString(hit.source)
    case None => Rejected(Unmapped)
    case Some(source) =>
      if !Readable(t, user, [source]) then Rejected(Unauthorized)
      else
        Evidence([Citation(source, NonEmptyString(Or(hit.pagePath, hit.wikiPage)), snippet, NonEmptyString(hit.page),
                           NonEmptyString(hit.revision), NonEmptyString(Or(hit.id, hit.chunk)), Some(Document))],
                 Mapped)
  }

  function MapLocalHit(t: Tables, user: Option<User>, hit: LocalHit): Evidence {
    var origin := OrElse(hit.origin, "document");
    var snippet := Strip(OrElse(Or(hit.snippet, hit.text), ""));
    if snippet == "" then Rejected(Unmapped)
    else if origin == "wiki" then MapWikiHit(t, user, hit, snippet)
    else if origin == "document" then MapDocumentHit(t, user, hit, snippet)
    else Rejected(Unmapped)
  }

  function MapHit(t: Tables, user: Option<User>, hit: Hit): Evidence {
    match hit
    case Remote(gbrain) => MapGBrainHit(t, user, gbrain)
    case Local(local) => MapLocalHit(t, user, local)
  }

  function MapHits(t: Tables, user: Option<User>, hits: seq<Hit>): seq<Citation> {
    if hits == [] then [] else MapHits(t, user, hits[..|hits| - 1]) + MapHit(t, user, hits[|hits| - 1]).citations
  }

  method DedupeCitations(citations: seq<Citation>) returns (deduped: seq<Citation>)
    ensures deduped == Distinct(citations)
  {
    deduped := [];
    var seen := {};
    for i := 0 to |citations|
      invariant deduped == Distinct(citations[..i])
      invariant forall c :: c in seen <==> c in deduped
    {
      assert citations[..i + 1][..i] == citations[..i];
      if citations[i] in seen {
        continue;
      }
      seen := seen + {citations[i]};
      deduped := deduped + [citations[i]];
    }
    assert citations[..|citations|] == citations;
  }

  // ---------- Checking citations again ----------

  /** What the citations of one page group share. */
  datatype Key = Key(
    origin: Option<Origin>,
    wikiPage: Option<string>,
    page: Option<string>,
    revision: Option<string>,
    chunk: Option<string>,
    snippet: string
  )

  function KeyOf(c: Citation): Key {
    Key(c.origin, c.wikiPage, c.page, c.revision, c.chunk, c.snippet)
  }

  predicate OnPage(key: Key) {
    key.origin == Some(Wiki) || key.origin == Some(GBrain)
  }

  predicate Given(value: Option<string>) {
    value.Some? && value.value != ""
  }

  predicate Named(key: Key) {
    Given(key.page) && Given(key.revision) && Given(key.wikiPage)
  }

  function Members(ids: seq<string>): set<string> {
    set id | id in ids
  }

  predicate HasCurrentMapping(t: Tables, page: string, revision: string, epoch: int, path: string) {
    exists m :: m in t.mappings && m.page == page && m.revision == revision && m.epoch == epoch && m.pagePath == path
                && m.status == "current"
  }

  predicate Backed(t: Tables, user: Option<User>, key: Key, cited: set<string>)
    requires key.page.Some? && key.revision.Some? && key.wikiPage.Some?
  {
    var pages := PagesWith(t.pages, key.page.value);
    var sources := RevisionSources(t, key.page.value, key.revision.value);
    && |pages| == 1
    && pages[0].lifecycle == "active" && pages[0].currentRevision == key.revision && pages[0].path == key.wikiPage.value
    && sources.Some? && sources.value != [] && cited == Members(sources.value) && Readable(t, user, sources.value)
    && if key.origin == Some(Wiki) then
         pages[0].visibleRevision == key.revision && pages[0].visibleEpoch == Some(pages[0].epoch)
       else HasCurrentMapping(t, key.page.value, key.revision.value, pages[0].epoch, key.wikiPage.value)
  }

  predicate GroupIsCurrent(t: Tables, user: Option<User>, key: Key, cited: set<string>) {
    Named(key) && Backed(t, user, key, cited)
  }

  /** The sources cited in a group. */
  function Cited(citations: seq<Citation>, key: Key): set<string> {
    set c | c in citations && KeyOf(c) == key && c.source != "" :: c.source
  }

  predicate Survives(t: Tables, user: Option<User>, citations: seq<Citation>, c: Citation) {
    if OnPage(KeyOf(c)) then GroupIsCurrent(t, user, KeyOf(c), Cited(citations, KeyOf(c)))
    else Readable(t, user, [c.source])
  }

  /** Those of the first n citations that survive. */
  function Survivors(t: Tables, user: Option<User>, citations: seq<Citation>, n: nat): (kept: seq<Citation>)
    requires n <= |citations|
    ensures forall c :: c in kept <==> c in citations[..n] && Survives(t, user, citations, c)
  {
    if n == 0 then []
    else
      assert citations[..n] == citations[..n - 1] + [citations[n - 1]];
      Survivors(t, user, citations, n - 1)
      + if Survives(t, user, citations, citations[n - 1]) then [citations[n - 1]] else []
  }

  function Revalidated(t: Tables, user: Option<User>, citations: seq<Citation>): seq<Citation> {
    Survivors(t, user, citations, |citations|)
  }

  method PageCitationGroupIsCurrent(t: Tables, user: Option<User>, citations: seq<Citation>, key: Key, group: set<nat>)
      returns (current: bool)
    requires forall i :: i in group <==> 0 <= i < |citations| && KeyOf(citations[i]) == key
    ensures current <==> GroupIsCurrent(t, user, key, Cited(citations, key))
  {
    if !Named(key) {
      return false;
    }
    var pages := PagesWith(t.pages, key.page.value);
    if |pages| != 1 {
      return false;
    }
    var page := pages[0];
    if page.lifecycle != "active" || page.currentRevision != key.revision || page.path != key.wikiPage.value {
      return false;
    }
    var expected := RevisionSources(t, key.page.value, key.revision.value);
    if expected.None? {
      return false;
    }
    var actual := set i | i in group && citations[i].source != "" :: citations[i].source;
    assert actual == Cited(citations, key) by {
      forall c | c in citations && KeyOf(c) == key && c.source != "" ensures c.source in actual {
        var i :| 0 <= i < |citations| && citations[i] == c;
        assert i in group;
      }
      forall source | source in actual ensures source in Cited(citations, key) {
        var i :| i in group && citations[i].source != "" && citations[i].source == source;
        assert citations[i] in citations;
      }
    }
    var readable := AllSourcesReadable(t, user, expected.value);
    if expected.value == [] || actual != Members(expected.value) || !readable {
      return false;
    }
    if key.origin == Some(Wiki) {
      return page.visibleRevision == key.revision && page.visibleEpoch == Some(page.epoch);
    }
    return HasCurrentMapping(t, key.page.value, key.revision.value, page.epoch, key.wikiPage.value);
  }

  /** The positions of a key among the first n citations. */
  function Positions(citations: seq<Citation>, n: nat, key: Key): (group: set<nat>)
    requires n <= |citations|
    ensures forall i :: i in group <==> 0 <= i < n && KeyOf(citations[i]) == key
  {
    set i | 0 <= i < n && KeyOf(citations[i]) == key
  }

  /** The page citations among the first n, grouped by their positions. */
  ghost predicate Grouped(citations: seq<Citation>, n: nat, groups: map<Key, set<nat>>)
    requires n <= |citations|
  {
    && (forall key :: key in groups ==> OnPage(key) && groups[key] == Positions(citations, n, key))
    && (forall i :: 0 <= i < n && OnPage(KeyOf(citations[i])) ==> KeyOf(citations[i]) in groups)
  }

  lemma OneMoreGrouped(citations: seq<Citation>, n: nat, groups: map<Key, set<nat>>)
    requires n < |citations| && Grouped(citations, n, groups)
    ensures var key := KeyOf(citations[n]);
            var group := (if key in groups then groups[key] else {}) + {n};
            Grouped(citations, n + 1, if OnPage(key) then groups[key := group] else groups)
  {
    forall key ensures Positions(citations, n + 1, key)
                       == Positions(citations, n, key) + if key == KeyOf(citations[n]) then {n} else {}
    {
    }
    var key := KeyOf(citations[n]);
    if key !in groups && OnPage(key) {
      assert Positions(citations, n, key) == {};
    }
  }

  method RevalidateCitations(t: Tables, user: Option<User>, citations: seq<Citation>) returns (kept: seq<Citation>)
    ensures kept == Revalidated(t, user, citations)
  {
    var valid: set<nat> := {};
    var groups: map<Key, set<nat>> := map[];
    for index := 0 to |citations|
      invariant Grouped(citations, index, groups)
      invariant forall i :: i in valid <==>
                  0 <= i < index && !OnPage(KeyOf(citations[i])) && Survives(t, user, citations, citations[i])
    {
      var citation := citations[index];
      var key := KeyOf(citation);
      OneMoreGrouped(citations, index, groups);
      if !OnPage(key) {
        var readable := AllSourcesReadable(t, user, [citation.source]);
        if readable {
          valid := valid + {index};
        }
        continue;
      }
      groups := groups[key := (if key in groups then groups[key] else {}) + {index}];
    }
    var remaining := groups.Keys;
    while remaining != {}
      invariant remaining <= groups.Keys
      invariant forall i :: i in valid <==>
                  0 <= i < |citations| && KeyOf(citations[i]) !in remaining
                    && Survives(t, user, citations, citations[i])
    {
      var key :| key in remaining;
      var current := PageCitationGroupIsCurrent(t, user, citations, key, groups[key]);
      if current {
        valid := valid + groups[key];
      }
      remaining := remaining - {key};
    }
    kept := [];
    for index := 0 to |citations|
      invariant kept == Survivors(t, user, citations, index)
    {
      if index in valid {
        kept := kept + [citations[index]];
      }
    }
  }

  // ---------- What the check keeps ----------

  lemma {:induction false} SurvivorsAreSublist(t: Tables, user: Option<User>, citations: seq<Citation>, n: nat)
    requires n <= |citations|
    ensures Sublist(Survivors(t, user, citations, n), citations[..n])
  {
    if n > 0 {
      SurvivorsAreSublist(t, user, citations, n - 1);
      var before, keep := Survivors(t, user, citations, n - 1), Survives(t, user, citations, citations[n - 1]);
      SublistGrows(before, citations, n - 1, keep);
      assert Survivors(t, user, citations, n) == before + if keep then [citations[n - 1]] else [];
    }
  }

  lemma AllSurvive(t: Tables, user: Option<User>, citations: seq<Citation>, n: nat)
    requires n <= |citations| && forall i :: 0 <= i < n ==> Survives(t, user, citations, citations[i])
    ensures Survivors(t, user, citations, n) == citations[..n]
  {
    var p := (c: Citation) => Survives(t, user, citations, c);
    SurvivorsAreWhere(t, user, citations, n, p);
    forall i | 0 <= i < n ensures p(citations[..n][i]) {
      assert Survives(t, user, citations, citations[i]);
    }
    WhereAll(citations[..n], p);
  }

  lemma {:induction false} SurvivorsAreWhere(
      t: Tables, user: Option<User>, citations: seq<Citation>, n: nat, p: Citation -> bool)
    requires n <= |citations| && forall c :: p(c) <==> Survives(t, user, citations, c)
    ensures Survivors(t, user, citations, n) == Where(citations[..n], p)
  {
    if n > 0 {
      SurvivorsAreWhere(t, user, citations, n - 1, p);
      assert citations[..n][..n - 1] == citations[..n - 1];
      assert p(citations[n - 1]) <==> Survives(t, user, citations, citations[n - 1]);
    }
  }

  /** An order-preserving sublist that keeps a page group whole or not at all, and is stable under a second check. */
  lemma RevalidationKeepsGroups(t: Tables, user: Option<User>, citations: seq<Citation>)
    ensures var kept := Revalidated(t, user, citations);
            && Sublist(kept, citations)
            && (forall c, d :: c in citations && d in citations && OnPage(KeyOf(c)) && KeyOf(c) == KeyOf(d) ==>
                  (c in kept <==> d in kept))
            && Revalidated(t, user, kept) == kept
  {
    var kept := Revalidated(t, user, citations);
    assert citations[..|citations|] == citations;
    SurvivorsAreSublist(t, user, citations, |citations|);
    forall c | c in kept ensures Survives(t, user, kept, c) {
      if OnPage(KeyOf(c)) {
        forall d | d in citations && KeyOf(d) == KeyOf(c) ensures d in kept {
        }
        assert Cited(kept, KeyOf(c)) == Cited(citations, KeyOf(c));
      }
    }
    AllSurvive(t, user, kept, |kept|);
    assert kept[..|kept|] == kept;
  }

  /** A kept page citation names the active page's current revision, and all its sources are cited and readable. */
  lemma KeptMeansCurrent(t: Tables, user: Option<User>, citations: seq<Citation>, c: Citation)
    requires c in Revalidated(t, user, citations) && OnPage(KeyOf(c))
    ensures c.page.Some? && c.revision.Some? && c.wikiPage.Some?
    ensures exists page :: page in t.pages && page.id == c.page && page.lifecycle == "active"
              && page.currentRevision == c.revision && Some(page.path) == c.wikiPage
              && (c.origin == Some(Wiki) ==>
                  page.visibleRevision == c.revision && page.visibleEpoch == Some(page.epoch))
    ensures var sources := RevisionSources(t, c.page.value, c.revision.value);
            && sources.Some?
            && (forall id :: id in sources.value ==>
                  SourceReadable(t, user, id) && exists d :: d in citations && KeyOf(d) == KeyOf(c) && d.source == id)
  {
    assert citations[..|citations|] == citations;
    var key := KeyOf(c);
    var cited := Cited(citations, key);
    assert GroupIsCurrent(t, user, key, cited);
    var page := PagesWith(t.pages, key.page.value)[0];
    assert page in PagesWith(t.pages, key.page.value);
    var sources := RevisionSources(t, key.page.value, key.revision.value);
    forall id | id in sources.value
      ensures SourceReadable(t, user, id) && exists d :: d in citations && KeyOf(d) == key && d.source == id
    {
      assert id in Members(sources.value);
      assert id in cited;
      assert id in NonEmpty(sources.value);
    }
  }

  // ---------- Mapping and the check agree ----------

  /** The citations of one hit form one page group with every source of its revision, or are one document. */
  ghost predicate Sound(t: Tables, user: Option<User>, citations: seq<Citation>) {
    forall c :: c in citations ==>
      var key := KeyOf(c);
      if OnPage(key) then
        && key.page.Some? && key.revision.Some? && key.wikiPage.Some?
        && (forall d :: d in citations ==> KeyOf(d) == key)
        && Backed(t, user, key, Cited(citations, key))
      else Readable(t, user, [c.source])
  }

  lemma CiteIsWhole(ids: seq<string>, like: Citation)
    requires "" !in ids
    ensures var citations := Cite(ids, like);
            && (forall c :: c in citations ==> KeyOf(c) == KeyOf(like))
            && Cited(citations, KeyOf(like)) == Members(ids)
  {
    var citations := Cite(ids, like);
    forall id | id in ids ensures id in Cited(citations, KeyOf(like)) {
      var i :| 0 <= i < |ids| && ids[i] == id;
      assert citations[i] in citations;
    }
  }

  lemma GBrainIsSound(t: Tables, user: Option<User>, hit: GBrainHit)
    ensures Sound(t, user, MapGBrainHit(t, user, hit).citations)
  {
    var citations := MapGBrainHit(t, user, hit).citations;
    if citations != [] {
      var found := MappingsWith(t.mappings, Strip(hit.namespace.value), Strip(hit.slug));
      var mapping := found[0];
      assert mapping in found;
      var page := PagesWith(t.pages, mapping.page)[0];
      var ids := RevisionSources(t, mapping.page, mapping.revision).value;
      CiteIsWhole(ids, citations[0].(source := ""));
    }
  }

  lemma WikiIsSound(t: Tables, user: Option<User>, hit: LocalHit, snippet: string)
    ensures Sound(t, user, MapWikiHit(t, user, hit, snippet).citations)
  {
    var citations := MapWikiHit(t, user, hit, snippet).citations;
    if citations != [] {
      var id, revision := NonEmptyString(hit.page).value, NonEmptyString(hit.revision).value;
      CiteIsWhole(RevisionSources(t, id, revision).value, citations[0].(source := ""));
    }
  }

  lemma HitIsSound(t: Tables, user: Option<User>, hit: Hit)
    ensures Sound(t, user, MapHit(t, user, hit).citations)
  {
    match hit
    case Remote(gbrain) => GBrainIsSound(t, user, gbrain);
    case Local(local) => WikiIsSound(t, user, local, Strip(OrElse(Or(local.snippet, local.text), "")));
  }

  /** Every mapped citation comes from a hit. */
  lemma {:induction false} MappedByHit(t: Tables, user: Option<User>, hits: seq<Hit>, c: Citation) returns (hit: Hit)
    requires c in MapHits(t, user, hits)
    ensures hit in hits && c in MapHit(t, user, hit).citations
  {
    var last := |hits| - 1;
    if c in MapHit(t, user, hits[last]).citations {
      hit := hits[last];
    } else {
      hit := MappedByHit(t, user, hits[..last], c);
    }
  }

  lemma {:induction false} HitsAreMapped(t: Tables, user: Option<User>, hits: seq<Hit>, hit: Hit)
    requires hit in hits
    ensures forall c :: c in MapHit(t, user, hit).citations ==> c in MapHits(t, user, hits)
  {
    var last := |hits| - 1;
    if hit != hits[last] {
      HitsAreMapped(t, user, hits[..last], hit);
    }
  }

  lemma MappedSurvives(t: Tables, user: Option<User>, hits: seq<Hit>, c: Citation)
    requires c in MapHits(t, user, hits)
    ensures var citations := Distinct(MapHits(t, user, hits));
            Survives(t, user, citations, c) <==> (OnPage(KeyOf(c)) ==> Named(KeyOf(c)))
  {
    var citations := Distinct(MapHits(t, user, hits));
    var hit := MappedByHit(t, user, hits, c);
    HitIsSound(t, user, hit);
    HitsAreMapped(t, user, hits, hit);
    var key := KeyOf(c);
    if OnPage(key) {
      var own := MapHit(t, user, hit).citations;
      assert Cited(own, key) <= Cited(citations, key);
      forall d | d in citations && KeyOf(d) == key && d.source != "" ensures d.source in Cited(own, key) {
        var other := MappedByHit(t, user, hits, d);
        HitIsSound(t, user, other);
        assert d.source in Cited(MapHit(t, user, other).citations, key);
      }
      assert Cited(citations, key) == Cited(own, key);
    }
  }

  /**
    In unchanged tables the citations of any hits, without repetition, pass the check unchanged exactly when
    no page citation has an empty page id, revision id or path.
   */
  lemma MappingAgreesWithCheck(t: Tables, user: Option<User>, hits: seq<Hit>)
    ensures var citations := Distinct(MapHits(t, user, hits));
            Revalidated(t, user, citations) == citations
            <==> forall c :: c in citations && OnPage(KeyOf(c)) ==> Named(KeyOf(c))
  {
    var citations := Distinct(MapHits(t, user, hits));
    assert citations[..|citations|] == citations;
    forall c | c in citations ensures Survives(t, user, citations, c) <==> (OnPage(KeyOf(c)) ==> Named(KeyOf(c))) {
      MappedSurvives(t, user, hits, c);
    }
    if forall c :: c in citations ==> Survives(t, user, citations, c) {
      AllSurvive(t, user, citations, |citations|);
    }
  }

  lemma SingleItems(id: string, page: Page)
    requires id != "" && page.id == Some(id)
    ensures Distinct(NonEmpty([id])) == [id] && PagesWith([page], id) == [page]
  {
    assert [id][..0] == [] && [page][..0] == [];
    assert NonEmpty([id]) == NonEmpty([]) + [id] == [id];
    assert Distinct([id]) == Distinct([]) + [id];
    assert PagesWith([page], id) == PagesWith([], id) + [page];
  }

  /** A page with an empty path: its hit is mapped. */
  lemma EmptyPathIsMapped() returns (t: Tables, hit: LocalHit)
    ensures MapWikiHit(t, None, hit, "x").diagnostic == Mapped
    ensures var citations := MapWikiHit(t, None, hit, "x").citations;
            |citations| == 1 && citations[0].origin == Some(Wiki) && citations[0].wikiPage == Some("")
    ensures hit.origin == Some("wiki") && hit.snippet == Some("x")
  {
    var page := Page(Some("p"), "", "active", Some("r"), 1, Some("r"), Some(1));
    t := Tables(map["p" := Source("active", Some(Metadata({}, None)), None)], [page],
                map["r" := Revision("p", Some(["p"]))], []);
    hit := LocalHit(Some("wiki"), Some("x"), None, None, Some("p"), Some("r"), Some(1), None, None, None, None);
    assert Strip("p") == "p" && Strip("r") == "r";
    SingleItems("p", page);
    assert Readable(t, None, ["p"]);
  }

  /** And its citation does not pass the check. */
  lemma EmptyPathDoesNotPass() returns (t: Tables, hit: Hit)
    ensures MapHit(t, None, hit).diagnostic == Mapped
    ensures var citations := Distinct(MapHits(t, None, [hit])); Revalidated(t, None, citations) != citations
  {
    var wiki;
    t, wiki := EmptyPathIsMapped();
    hit := Local(wiki);
    assert Strip("x") == "x";
    var citation := MapHit(t, None, hit).citations[0];
    HitsAreMapped(t, None, [hit], hit);
    MappingAgreesWithCheck(t, None, [hit]);
    assert citation in MapHits(t, None, [hit]) && OnPage(KeyOf(citation)) && !Named(KeyOf(citation));
  }

  // ---------- When a hit is mapped ----------

  /** The i-th mapping is the only one of the document. */
  predicate OnlyMapping(mappings: seq<Mapping>, namespace: string, slug: string, i: int) {
    && 0 <= i < |mappings|
    && forall j :: 0 <= j < |mappings| ==>
         (mappings[j].namespace == namespace && mappings[j].slug == slug <==> j == i)
  }

  /** The k-th page is the only one with the id. */
  predicate OnlyPage(pages: seq<Page>, id: string, k: int) {
    0 <= k < |pages| && forall j :: 0 <= j < |pages| ==> (pages[j].id == Some(id) <==> j == k)
  }

  lemma {:induction false} MappingsAreWhere(mappings: seq<Mapping>, namespace: string, slug: string, p: Mapping -> bool)
    requires forall m :: p(m) <==> m.namespace == namespace && m.slug == slug
    ensures MappingsWith(mappings, namespace, slug) == Where(mappings, p)
  {
    if mappings != [] {
      MappingsAreWhere(mappings[..|mappings| - 1], namespace, slug, p);
    }
  }

  lemma OneMapping(mappings: seq<Mapping>, namespace: string, slug: string)
    ensures var found := MappingsWith(mappings, namespace, slug);
            && (|found| == 1 <==> exists i :: OnlyMapping(mappings, namespace, slug, i))
            && forall i :: OnlyMapping(mappings, namespace, slug, i) ==> found == [mappings[i]]
  {
    var p := (m: Mapping) => m.namespace == namespace && m.slug == slug;
    MappingsAreWhere(mappings, namespace, slug, p);
    WhereOne(mappings, p);
    assert forall i :: OnlyMapping(mappings, namespace, slug, i) <==> OnlyAt(mappings, p, i);
  }

  lemma {:induction false} PagesAreWhere(pages: seq<Page>, id: string, p: Page -> bool)
    requires forall page :: p(page) <==> page.id == Some(id)
    ensures PagesWith(pages, id) == Where(pages, p)
  {
    if pages != [] {
      PagesAreWhere(pages[..|pages| - 1], id, p);
    }
  }

  lemma OnePage(pages: seq<Page>, id: string)
    ensures var found := PagesWith(pages, id);
            && (|found| == 1 <==> exists k :: OnlyPage(pages, id, k))
            && forall k :: OnlyPage(pages, id, k) ==> found == [pages[k]]
  {
    var p := (page: Page) => page.id == Some(id);
    PagesAreWhere(pages, id, p);
    WhereOne(pages, p);
    assert forall k :: OnlyPage(pages, id, k) <==> OnlyAt(pages, p, k);
  }

  /** The revision is one of the page, has a source, and the user may read every source it has. */
  predicate MayBeCited(t: Tables, user: Option<User>, page: string, revision: string) {
    && revision in t.revisions && t.revisions[revision].page == page && t.revisions[revision].sourceIds.Some?
    && (exists id :: id in t.revisions[revision].sourceIds.value && id != "")
    && forall id :: id in t.revisions[revision].sourceIds.value && id != "" ==> SourceReadable(t, user, id)
  }

  lemma CitedIsReadable(t: Tables, user: Option<User>, page: string, revision: string)
    ensures MayBeCited(t, user, page, revision)
            <==> && RevisionSources(t, page, revision).Some?
                 && Readable(t, user, RevisionSources(t, page, revision).value)
    ensures MayBeCited(t, user, page, revision) ==>
              var sources := RevisionSources(t, page, revision).value;
              NoneTwice(sources) && forall id :: id in sources <==>
                id != "" && id in t.revisions[revision].sourceIds.value
  {
    var sources := RevisionSources(t, page, revision);
    if sources.Some? {
      var given := t.revisions[revision].sourceIds.value;
      assert forall id :: id in sources.value <==> id in NonEmpty(given);
      assert forall id :: id in NonEmpty(sources.value) <==> id in given && id != "";
      if id :| id in given && id != "" {
        assert id in NonEmpty(sources.value);
      }
      if NonEmpty(sources.value) != [] {
        assert NonEmpty(sources.value)[0] in NonEmpty(sources.value);
      }
    }
  }

  /** The hit shows text of a document, and the i-th mapping is the only one of that document. */
  predicate RemoteIsNamed(t: Tables, hit: GBrainHit, i: int) {
    && Strip(hit.snippet) != "" && hit.namespace.Some? && Strip(hit.namespace.value) != "" && Strip(hit.slug) != ""
    && OnlyMapping(t.mappings, Strip(hit.namespace.value), Strip(hit.slug), i)
  }

  /** The mapping is current and of the hit's content, and shows the k-th page, the only one, as it is. */
  predicate RemoteIsFresh(t: Tables, hit: GBrainHit, i: int, k: int)
    requires 0 <= i < |t.mappings|
  {
    var m := t.mappings[i];
    && m.status == "current" && m.contentHash != "" && hit.contentHash == Some(m.contentHash)
    && hit.generation == Some(m.generation)
    && m.sourcePath != "" && hit.sourcePath.Some? && Strip(hit.sourcePath.value) == m.sourcePath
    && OnlyPage(t.pages, m.page, k)
    && t.pages[k].lifecycle == "active" && t.pages[k].currentRevision == Some(m.revision)
    && t.pages[k].epoch == m.epoch && m.epoch != 0 && t.pages[k].path == m.pagePath
  }

  /** The citations are one for each source of the revision, and alike in all else. */
  ghost predicate CitesAll(t: Tables, citations: seq<Citation>, like: Citation, revision: string) {
    && NoneTwice(citations)
    && (forall c :: c in citations ==> c == like.(source := c.source))
    && revision in t.revisions && t.revisions[revision].sourceIds.Some?
    && forall id :: HasSource(citations, id) <==> id != "" && id in t.revisions[revision].sourceIds.value
  }

  predicate HasSource(citations: seq<Citation>, id: string) {
    exists i :: 0 <= i < |citations| && citations[i].source == id
  }

  lemma CiteCitesAll(t: Tables, user: Option<User>, page: string, revision: string, like: Citation)
    requires MayBeCited(t, user, page, revision)
    ensures RevisionSources(t, page, revision).Some?
    ensures CitesAll(t, Cite(RevisionSources(t, page, revision).value, like), like, revision)
  {
    CitedIsReadable(t, user, page, revision);
    var sources := RevisionSources(t, page, revision).value;
    var citations := Cite(sources, like);
    forall id ensures HasSource(citations, id) <==> id in sources {
      if id in sources {
        var i :| 0 <= i < |sources| && sources[i] == id;
        assert citations[i].source == id;
      }
      if HasSource(citations, id) {
        var i :| 0 <= i < |citations| && citations[i].source == id;
        assert sources[i] == id;
      }
    }
    forall i, j | 0 <= i < j < |citations| ensures citations[i] != citations[j] {
      assert citations[i].source == sources[i] && citations[j].source == sources[j];
    }
  }

  /**
    A remote hit is mapped exactly if it names one document with a current mapping that shows its page as it is,
    and the user may read what is cited; and what is amiss first decides the diagnostic.
   */
  lemma RemoteHitIsMapped(t: Tables, user: Option<User>, hit: GBrainHit)
    ensures var evidence := MapGBrainHit(t, user, hit);
            && (evidence.diagnostic == Unmapped <==> forall i :: !RemoteIsNamed(t, hit, i))
            && (evidence.diagnostic == Stale <==>
                  exists i :: RemoteIsNamed(t, hit, i) && forall k :: !RemoteIsFresh(t, hit, i, k))
            && (evidence.diagnostic == Unauthorized <==>
                  exists i, k :: RemoteIsNamed(t, hit, i) && RemoteIsFresh(t, hit, i, k)
                                 && !MayBeCited(t, user, t.mappings[i].page, t.mappings[i].revision))
            && (evidence.diagnostic == Mapped <==>
                  exists i, k :: RemoteIsNamed(t, hit, i) && RemoteIsFresh(t, hit, i, k)
                                 && MayBeCited(t, user, t.mappings[i].page, t.mappings[i].revision))
            && (evidence.diagnostic != Mapped ==> evidence.citations == [])
  {
    if i :| RemoteIsNamed(t, hit, i) {
      OnlyRemote(t, hit, i);
      RemoteOfMapping(t, user, hit, i);
    } else {
      RemoteUnnamed(t, user, hit);
    }
  }

  lemma OnlyRemote(t: Tables, hit: GBrainHit, i: int)
    requires RemoteIsNamed(t, hit, i)
    ensures forall j :: RemoteIsNamed(t, hit, j) ==> j == i
  {
    forall j | RemoteIsNamed(t, hit, j) ensures j == i {
      assert t.mappings[j].namespace == Strip(hit.namespace.value) && t.mappings[j].slug == Strip(hit.slug);
    }
  }

  lemma RemoteUnnamed(t: Tables, user: Option<User>, hit: GBrainHit)
    requires forall i :: !RemoteIsNamed(t, hit, i)
    ensures MapGBrainHit(t, user, hit) == Rejected(Unmapped)
  {
    if Strip(hit.snippet) != "" && hit.namespace.Some? && Strip(hit.namespace.value) != "" && Strip(hit.slug) != "" {
      OneMapping(t.mappings, Strip(hit.namespace.value), Strip(hit.slug));
      forall i ensures !OnlyMapping(t.mappings, Strip(hit.namespace.value), Strip(hit.slug), i) {
        assert !RemoteIsNamed(t, hit, i);
      }
    }
  }

  lemma RemoteOfMapping(t: Tables, user: Option<User>, hit: GBrainHit, i: int)
    requires RemoteIsNamed(t, hit, i)
    ensures var evidence, m := MapGBrainHit(t, user, hit), t.mappings[i];
            && evidence.diagnostic
               == (if forall k :: !RemoteIsFresh(t, hit, i, k) then Stale
                   else if MayBeCited(t, user, m.page, m.revision) then Mapped else Unauthorized)
            && (evidence.diagnostic != Mapped ==> evidence.citations == [])
  {
    var m := t.mappings[i];
    OneMapping(t.mappings, Strip(hit.namespace.value), Strip(hit.slug));
    OnePage(t.pages, m.page);
    if k :| OnlyPage(t.pages, m.page, k) {
      forall j | OnlyPage(t.pages, m.page, j) ensures j == k {
        assert t.pages[j].id == Some(m.page);
      }
      RemoteOfPage(t, user, hit, i, k);
    }
  }

  lemma RemoteOfPage(t: Tables, user: Option<User>, hit: GBrainHit, i: int, k: int)
    requires RemoteIsNamed(t, hit, i) && OnlyPage(t.pages, t.mappings[i].page, k)
    ensures var evidence, m := MapGBrainHit(t, user, hit), t.mappings[i];
            && evidence.diagnostic
               == (if !RemoteIsFresh(t, hit, i, k) then Stale
                   else if MayBeCited(t, user, m.page, m.revision) then Mapped else Unauthorized)
            && (evidence.diagnostic != Mapped ==> evidence.citations == [])
  {
    var m := t.mappings[i];
    OneMapping(t.mappings, Strip(hit.namespace.value), Strip(hit.slug));
    OnePage(t.pages, m.page);
    CitedIsReadable(t, user, m.page, m.revision);
  }

  /** A mapped remote hit cites every source of the page's revision, each with the text of the hit. */
  lemma RemoteHitCites(t: Tables, user: Option<User>, hit: GBrainHit, i: int, k: int)
    requires RemoteIsNamed(t, hit, i) && RemoteIsFresh(t, hit, i, k)
    requires MayBeCited(t, user, t.mappings[i].page, t.mappings[i].revision)
    ensures var m := t.mappings[i];
            CitesAll(t, MapGBrainHit(t, user, hit).citations,
                     Citation("", Some(t.pages[k].path), Strip(hit.snippet), Some(m.page), Some(m.revision), hit.chunk,
                              Some(GBrain)), m.revision)
  {
    var m := t.mappings[i];
    OneMapping(t.mappings, Strip(hit.namespace.value), Strip(hit.slug));
    OnePage(t.pages, m.page);
    CitedIsReadable(t, user, m.page, m.revision);
    CiteCitesAll(t, user, m.page, m.revision,
                 Citation("", Some(t.pages[k].path), Strip(hit.snippet), Some(m.page), Some(m.revision), hit.chunk,
                          Some(GBrain)));
  }

  /** Where a local hit says it comes from; from a document if it does not say. */
  function OriginOf(hit: LocalHit): string {
    if hit.origin.None? || hit.origin.value == "" then "document" else hit.origin.value
  }

  /** The snippet of a local hit, or its text if it has none, without the space around it. */
  function TextOf(hit: LocalHit): string {
    if hit.snippet.Some? && hit.snippet.value != "" then Strip(hit.snippet.value)
    else if hit.text.Some? then Strip(hit.text.value) else ""
  }

  /** The value without the space around it. */
  predicate Says(value: Option<string>, text: string) {
    value.Some? && text != "" && Strip(value.value) == text
  }

  /** The hit shows text of a revision of a page at an epoch. */
  predicate WikiIsNamed(hit: LocalHit, page: string, revision: string) {
    && OriginOf(hit) == "wiki" && TextOf(hit) != ""
    && Says(hit.page, page) && Says(hit.revision, revision) && hit.epoch.Some?
  }

  /** The k-th page is the only one with the id; it is active and visible with the revision and epoch of the hit. */
  predicate WikiIsFresh(t: Tables, hit: LocalHit, page: string, revision: string, k: int)
    requires hit.epoch.Some?
  {
    && OnlyPage(t.pages, page, k)
    && var row := t.pages[k];
       && row.lifecycle == "active" && row.currentRevision == row.visibleRevision == Some(revision)
       && row.epoch == hit.epoch.value && row.visibleEpoch == hit.epoch && hit.epoch != Some(0)
       && (hit.pagePath.Some? ==> Strip(hit.pagePath.value) in {"", row.path})
  }

  lemma LocalHitIs(t: Tables, user: Option<User>, hit: LocalHit)
    ensures MapLocalHit(t, user, hit)
            == if TextOf(hit) == "" then Rejected(Unmapped)
               else if OriginOf(hit) == "wiki" then MapWikiHit(t, user, hit, TextOf(hit))
               else if OriginOf(hit) == "document" then MapDocumentHit(t, user, hit, TextOf(hit))
               else Rejected(Unmapped)
  {
    assert Strip("") == "";
  }

  /** A wiki hit is mapped exactly if its page is visible with its revision and the user may read what is cited. */
  lemma WikiHitIsMapped(t: Tables, user: Option<User>, hit: LocalHit, page: string, revision: string)
    requires WikiIsNamed(hit, page, revision)
    ensures var evidence := MapLocalHit(t, user, hit);
            && evidence.diagnostic
               == (if forall k :: !WikiIsFresh(t, hit, page, revision, k) then Stale
                   else if MayBeCited(t, user, page, revision) then Mapped else Unauthorized)
            && (evidence.diagnostic != Mapped ==> evidence.citations == [])
            && forall k :: WikiIsFresh(t, hit, page, revision, k) && MayBeCited(t, user, page, revision) ==>
                 exists chunk ::
                   CitesAll(t, evidence.citations,
                            Citation("", Some(t.pages[k].path), TextOf(hit), Some(page), Some(revision), chunk,
                                     Some(Wiki)), revision)
  {
    OnePage(t.pages, page);
    if k :| OnlyPage(t.pages, page, k) {
      forall j | OnlyPage(t.pages, page, j) ensures j == k {
        assert t.pages[j].id == Some(page);
      }
      WikiOfPage(t, user, hit, page, revision, k);
    }
  }

  lemma WikiOfPage(t: Tables, user: Option<User>, hit: LocalHit, page: string, revision: string, k: int)
    requires WikiIsNamed(hit, page, revision) && OnlyPage(t.pages, page, k)
    ensures var evidence := MapLocalHit(t, user, hit);
            && evidence.diagnostic
               == (if !WikiIsFresh(t, hit, page, revision, k) then Stale
                   else if MayBeCited(t, user, page, revision) then Mapped else Unauthorized)
            && (evidence.diagnostic != Mapped ==> evidence.citations == [])
            && (evidence.diagnostic == Mapped ==>
                  exists chunk ::
                    CitesAll(t, evidence.citations,
                             Citation("", Some(t.pages[k].path), TextOf(hit), Some(page), Some(revision), chunk,
                                      Some(Wiki)), revision))
  {
    LocalHitIs(t, user, hit);
    WikiIsDecided(t, user, hit, TextOf(hit), page, revision, k);
    if MayBeCited(t, user, page, revision) {
      var chunk := NonEmptyString(Or(hit.id, hit.chunk));
      CiteCitesAll(t, user, page, revision,
                   Citation("", Some(t.pages[k].path), TextOf(hit), Some(page), Some(revision), chunk, Some(Wiki)));
    }
  }

  lemma WikiIsDecided(
      t: Tables, user: Option<User>, hit: LocalHit, snippet: string, page: string, revision: string, k: int)
    requires WikiIsNamed(hit, page, revision) && OnlyPage(t.pages, page, k)
    ensures MapWikiHit(t, user, hit, snippet)
            == (if !WikiIsFresh(t, hit, page, revision, k) then Rejected(Stale)
                else if !MayBeCited(t, user, page, revision) then Rejected(Unauthorized)
                else
                  CitedIsReadable(t, user, page, revision);
                  Evidence(Cite(RevisionSources(t, page, revision).value,
                                Citation("", Some(t.pages[k].path), snippet, Some(page), Some(revision),
                                         NonEmptyString(Or(hit.id, hit.chunk)), Some(Wiki))),
                           Mapped))
  {
    OnePage(t.pages, page);
    CitedIsReadable(t, user, page, revision);
  }

  /** A document hit is mapped exactly if the user may read its source, which it then cites with its text. */
  lemma DocumentHitIsMapped(t: Tables, user: Option<User>, hit: LocalHit, source: string)
    requires OriginOf(hit) == "document" && TextOf(hit) != "" && Says(hit.source, source)
    ensures var evidence := MapLocalHit(t, user, hit);
            if SourceReadable(t, user, source) then
              && evidence.diagnostic == Mapped && |evidence.citations| == 1
              && evidence.citations[0].source == source && evidence.citations[0].snippet == TextOf(hit)
              && evidence.citations[0].origin == Some(Document)
            else evidence == Rejected(Unauthorized)
  {
    LocalHitIs(t, user, hit);
    assert [source][..0] == [];
    assert NonEmpty([source]) == NonEmpty([]) + [source] == [source];
    assert source in NonEmpty([source]);
  }

  /** Every other local hit is unmapped: without text, of another origin, or without what it should name. */
  lemma OtherHitsAreUnmapped(t: Tables, user: Option<User>, hit: LocalHit)
    requires forall page, revision :: !WikiIsNamed(hit, page, revision)
    requires OriginOf(hit) == "document" && TextOf(hit) != "" ==> forall source :: !Says(hit.source, source)
    ensures MapLocalHit(t, user, hit) == Rejected(Unmapped)
  {
    LocalHitIs(t, user, hit);
    if OriginOf(hit) == "wiki" && TextOf(hit) != "" && hit.page.Some? && hit.revision.Some? {
      assert !WikiIsNamed(hit, Strip(hit.page.value), Strip(hit.revision.value));
    }
    if hit.source.Some? {
      assert Says(hit.source, Strip(hit.source.value)) || Strip(hit.source.value) == "";
    }
  }

  // ---------- When a citation is kept ----------

  /** The mapping is current and shows the page with this revision, epoch and path. */
  predicate MapsPage(m: Mapping, page: string, revision: string, epoch: int, path: string) {
    m.status == "current" && m.page == page && m.revision == revision && m.epoch == epoch && m.pagePath == path
  }

  /** The k-th page, the only one with the id, is active with the revision and the path of the citation. */
  predicate ShowsCited(t: Tables, c: Citation, k: int)
    requires c.page.Some? && c.revision.Some?
  {
    && OnlyPage(t.pages, c.page.value, k)
    && t.pages[k].lifecycle == "active" && t.pages[k].currentRevision == c.revision
    && Some(t.pages[k].path) == c.wikiPage
    && if c.origin == Some(Wiki) then
         t.pages[k].visibleRevision == c.revision && t.pages[k].visibleEpoch == Some(t.pages[k].epoch)
       else
         exists i :: 0 <= i < |t.mappings|
                     && MapsPage(t.mappings[i], c.page.value, c.revision.value, t.pages[k].epoch, t.pages[k].path)
  }

  /** Its page is shown as it is cited, and those like it cite just the sources of the revision, all readable. */
  predicate StandsUp(t: Tables, user: Option<User>, citations: seq<Citation>, c: Citation) {
    && c.page.Some? && c.page.value != "" && c.revision.Some? && c.revision.value != ""
    && c.wikiPage.Some? && c.wikiPage.value != ""
    && MayBeCited(t, user, c.page.value, c.revision.value)
    && (forall d :: d in citations && d == c.(source := d.source) && d.source != "" ==>
          d.source in t.revisions[c.revision.value].sourceIds.value)
    && (forall id :: id in t.revisions[c.revision.value].sourceIds.value && id != "" ==> c.(source := id) in citations)
    && exists k :: 0 <= k < |t.pages| && ShowsCited(t, c, k)
  }

  /**
    A citation is kept exactly if it cites a readable document, or a page as it is shown now together with just
    the sources of its revision, all of them readable.
   */
  lemma KeptExactly(t: Tables, user: Option<User>, citations: seq<Citation>, c: Citation)
    requires c in citations
    ensures c in Revalidated(t, user, citations)
            <==> if c.origin == Some(Wiki) || c.origin == Some(GBrain) then StandsUp(t, user, citations, c)
                 else c.source != "" && SourceReadable(t, user, c.source)
  {
    assert citations[..|citations|] == citations;
    var key := KeyOf(c);
    if OnPage(key) {
      if Named(key) {
        GroupStandsUp(t, user, citations, c);
      }
    } else {
      assert [c.source][..0] == [];
      assert NonEmpty([c.source]) == NonEmpty([]) + if c.source == "" then [] else [c.source];
    }
  }

  lemma SameKey(c: Citation, d: Citation)
    ensures KeyOf(c) == KeyOf(d) <==> d == c.(source := d.source)
  {
  }

  lemma CitedSources(t: Tables, citations: seq<Citation>, c: Citation, sources: seq<string>)
    requires c in citations && "" !in sources
    ensures Cited(citations, KeyOf(c)) == Members(sources)
            <==> && (forall d :: d in citations && d == c.(source := d.source) && d.source != "" ==>
                       d.source in sources)
                 && (forall id :: id in sources ==> c.(source := id) in citations)
  {
    var cited := Cited(citations, KeyOf(c));
    forall d ensures KeyOf(d) == KeyOf(c) <==> d == c.(source := d.source) {
      SameKey(c, d);
    }
    forall id ensures id in cited <==> id != "" && c.(source := id) in citations {
      if id in cited {
        var d :| d in citations && KeyOf(d) == KeyOf(c) && d.source != "" && d.source == id;
        assert d == c.(source := id);
      }
    }
    assert cited == Members(sources) <==> forall id :: id in cited <==> id in sources;
  }

  lemma GroupStandsUp(t: Tables, user: Option<User>, citations: seq<Citation>, c: Citation)
    requires c in citations && OnPage(KeyOf(c)) && Named(KeyOf(c))
    ensures GroupIsCurrent(t, user, KeyOf(c), Cited(citations, KeyOf(c))) <==> StandsUp(t, user, citations, c)
  {
    var page, revision := c.page.value, c.revision.value;
    OnePage(t.pages, page);
    CitedIsReadable(t, user, page, revision);
    if MayBeCited(t, user, page, revision) {
      var sources := RevisionSources(t, page, revision).value;
      CitedSources(t, citations, c, sources);
      var id :| id in t.revisions[revision].sourceIds.value && id != "";
      assert id in sources;
      if k :| OnlyPage(t.pages, page, k) {
        forall j | OnlyPage(t.pages, page, j) ensures j == k {
          assert t.pages[j].id == Some(page);
        }
        ShownIsBacked(t, c, k);
      }
    }
  }

  lemma ShownIsBacked(t: Tables, c: Citation, k: int)
    requires OnPage(KeyOf(c)) && Named(KeyOf(c)) && OnlyPage(t.pages, c.page.value, k)
    ensures ShowsCited(t, c, k)
            <==> && t.pages[k].lifecycle == "active" && t.pages[k].currentRevision == c.revision
                 && t.pages[k].path == c.wikiPage.value
                 && if c.origin == Some(Wiki) then
                      t.pages[k].visibleRevision == c.revision && t.pages[k].visibleEpoch == Some(t.pages[k].epoch)
                    else
                      HasCurrentMapping(t, c.page.value, c.revision.value, t.pages[k].epoch, c.wikiPage.value)
  {
    if HasCurrentMapping(t, c.page.value, c.revision.value, t.pages[k].epoch, c.wikiPage.value) {
      var m :| m in t.mappings && m.page == c.page.value && m.revision == c.revision.value
               && m.epoch == t.pages[k].epoch && m.pagePath == c.wikiPage.value && m.status == "current";
      var i :| 0 <= i < |t.mappings| && t.mappings[i] == m;
    }
  }

  /** Who may read a source: an administrator, anyone if it is open, who shares a tag with it, and its owner. */
  lemma WhoMayRead(t: Tables, user: User, id: string)
    ensures SourceReadable(t, Some(user), id)
            <==> && id in t.sources && t.sources[id].status == "active" && t.sources[id].metadata.Some?
                 && var m := t.sources[id].metadata.value;
                    || user.isAdmin || m.aclTags == {} || "public" in m.aclTags
                    || (exists tag :: tag in m.aclTags && tag in user.aclTags)
                    || (exists owner :: owner != "" && (owner == user.id || owner == user.name)
                                        && (t.sources[id].owner == Some(owner) || m.owner == Some(owner)))
  {
    if id in t.sources && t.sources[id].metadata.Some? {
      var m := t.sources[id].metadata.value;
      assert m.aclTags * user.aclTags != {} <==> exists tag :: tag in m.aclTags && tag in user.aclTags by {
        if m.aclTags * user.aclTags != {} {
          var tag :| tag in m.aclTags * user.aclTags;
        }
        if tag :| tag in m.aclTags && tag in user.aclTags {
          assert tag in m.aclTags * user.aclTags;
        }
      }
    }
  }
}
