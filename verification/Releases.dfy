/** Releases over time: ingests that prepare outside any lock and write under one, and activations. */
module Releases {
  import opened Wrappers
  import opened Chunking
  import opened Knowledge

  // ----- the transactions

  function ChunksOf(chunks: seq<Chunk>, version: string): (r: seq<Chunk>)
    ensures forall c :: c in r <==> c in chunks && c.version == version
  {
    if chunks == [] then []
    else
      var c := chunks[|chunks| - 1];
      ChunksOf(chunks[..|chunks| - 1], version) + if c.version == version then [c] else []
  }

  /** The locked write of an ingest: a release that is already there is left alone. */
  function Inserted(s: Store, version: string, articles: seq<Article>, prepared: seq<Chunk>): Store {
    if version in s.releases then s
    else Store(s.releases[version := Release(articles, false)], s.chunks + prepared)
  }

  datatype Verdict = Activated | NotIngested | NoChunks | Unembedded

  predicate AllEmbedded(chunks: seq<Chunk>) {
    forall i :: 0 <= i < |chunks| ==> chunks[i].embedding.Some?
  }

  function Switched(s: Store, version: string): Store {
    s.(releases := map v | v in s.releases :: s.releases[v].(active := v == version))
  }

  ghost predicate Active(s: Store, version: string) {
    version in s.releases && s.releases[version].active
  }

  /** What a preparation from `cache` yields. */
  ghost predicate PreparedFrom(o: Outside, mode: Mode, version: string, articles: seq<Article>, cache: Cache,
                               prepared: seq<Chunk>) {
    && AllBare(prepared) == ReleaseChunks(o, version, articles)
    && forall i :: 0 <= i < |prepared| ==>
         prepared[i].embedding ==
           if (prepared[i].article, prepared[i].hash) in cache then Some(cache[(prepared[i].article, prepared[i].hash)])
           else if mode.embeddings then Some(o.embed(prepared[i].content)) else None
  }

  /** Whether some stored chunk holds a vector for this one's article and text. */
  ghost predicate StoredVector(chunks: seq<Chunk>, c: Chunk) {
    exists i :: 0 <= i < |chunks| && HasVector(chunks[i], c.article, c.hash)
  }

  /** Every piece has a stored vector of its article and text if there is one; otherwise the service's for its
      text, or none if the service is not configured. */
  ghost predicate VectorsReused(o: Outside, mode: Mode, chunks: seq<Chunk>, prepared: seq<Chunk>) {
    forall k :: 0 <= k < |prepared| ==>
      var c := prepared[k];
      && (StoredVector(chunks, c) ==> exists i :: 0 <= i < |chunks| && HasVector(chunks[i], c.article, c.hash)
                                                && c.embedding == chunks[i].embedding)
      && (!StoredVector(chunks, c) ==>
            c.embedding == if mode.embeddings then Some(o.embed(c.content)) else None)
  }

  lemma PreparedReuses(o: Outside, mode: Mode, version: string, articles: seq<Article>, chunks: seq<Chunk>,
                       prepared: seq<Chunk>)
    requires PreparedFrom(o, mode, version, articles, CacheOf(chunks), prepared)
    ensures VectorsReused(o, mode, chunks, prepared) && PiecesOf(o, version, articles, AllBare(prepared))
  {
    hide CacheOf, PiecesOf, ReleaseChunks;
    ReleasePiecesAre(o, version, articles);
    forall k | 0 <= k < |prepared|
      ensures var c := prepared[k];
              && (StoredVector(chunks, c) ==> exists i :: 0 <= i < |chunks| && HasVector(chunks[i], c.article, c.hash)
                                                        && c.embedding == chunks[i].embedding)
              && (!StoredVector(chunks, c) ==>
                    c.embedding == if mode.embeddings then Some(o.embed(c.content)) else None)
    {
      CacheIsStored(chunks, prepared[k].article, prepared[k].hash);
    }
  }

  /** Some chunk of the release is stored; and some without a vector. */
  ghost predicate HasChunk(chunks: seq<Chunk>, version: string) {
    exists c :: c in chunks && c.version == version
  }

  ghost predicate HasUnembedded(chunks: seq<Chunk>, version: string) {
    exists c :: c in chunks && c.version == version && c.embedding == None
  }

  class KnowledgeBase {
    var releases: map<string, Release>
    var chunks: seq<Chunk>

    ghost function Rows(): Store
      reads this
    {
      Store(releases, chunks)
    }

    constructor ()
      ensures Rows() == Store(map[], [])
    {
      releases, chunks := map[], [];
    }

    /** `ingest` up to its second transaction: nothing when the release is there already, or when production
        lacks the embedding service. */
    method PrepareIngest(o: Outside, mode: Mode, version: string, articles: seq<Article>)
      returns (prepared: Option<seq<Chunk>>)
      ensures prepared.None? <==> version in releases || (mode.production && !mode.embeddings)
      ensures prepared.Some? ==>
                && VectorsReused(o, mode, chunks, prepared.value)
                && PiecesOf(o, version, articles, AllBare(prepared.value))
      ensures prepared.Some? ==> PreparedFrom(o, mode, version, articles, CacheOf(chunks), prepared.value)
    {
      hide VectorsReused, PiecesOf;
      if version in releases { return None; }
      var cache := CacheOf(chunks);
      var pieces := Prepare(o, version, articles, cache);
      if mode.embeddings {
        pieces := EmbedChanged(o, pieces);
      } else if mode.production {
        return None;
      }
      prepared := Some(pieces);
      PreparedReuses(o, mode, version, articles, chunks, pieces);
    }

    method CommitIngest(version: string, articles: seq<Article>, prepared: seq<Chunk>) returns (ingested: bool)
      modifies this
      ensures ingested <==> version !in old(releases)
      ensures ingested ==>
                releases == old(releases)[version := Release(articles, false)] && chunks == old(chunks) + prepared
      ensures !ingested ==> releases == old(releases) && chunks == old(chunks)
      ensures Rows() == Inserted(old(Rows()), version, articles, prepared)
    {
      if version in releases { return false; }
      releases := releases[version := Release(articles, false)];
      chunks := chunks + prepared;
      ingested := true;
    }

    /** `activate`: a refusal changes nothing. */
    method Activate(mode: Mode, version: string) returns (v: Verdict)
      modifies this
      ensures v == NotIngested <==> version !in old(releases)
      ensures v == NoChunks <==> version in old(releases) && !HasChunk(chunks, version)
      ensures v == Unembedded <==>
              version in old(releases) && HasChunk(chunks, version) && mode.production && HasUnembedded(chunks, version)
      ensures chunks == old(chunks) && (v != Activated ==> releases == old(releases))
      ensures v == Activated ==>
                && releases.Keys == old(releases).Keys
                && forall w :: w in releases ==> releases[w] == Release(old(releases)[w].articles, w == version)
      ensures v == NoChunks <==> version in old(releases) && ChunksOf(chunks, version) == []
      ensures v == Activated ==> Rows() == Switched(old(Rows()), version)
      ensures v == Activated ==> mode.production ==> AllEmbedded(ChunksOf(chunks, version))
      ensures v == Unembedded ==> mode.production && !AllEmbedded(ChunksOf(chunks, version))
      ensures v != Activated ==> Rows() == old(Rows())
    {
      if version !in releases { return NotIngested; }
      var own := ChunksOf(chunks, version);
      assert own != [] ==> own[0] in own;
      if own == [] { return NoChunks; }
      if mode.production && !AllEmbedded(own) { return Unembedded; }
      releases := map v | v in releases :: releases[v].(active := v == version);
      v := Activated;
    }
  }

  // ----- the invariant

  ghost predicate HasBare(o: Outside, s: Store, version: string) {
    && version in s.releases
    && AllBare(ChunksOf(s.chunks, version)) == ReleaseChunks(o, version, s.releases[version].articles)
  }

  ghost predicate OneActive(s: Store) {
    forall v, w :: Active(s, v) && Active(s, w) ==> v == w
  }

  ghost predicate ActiveUsable(s: Store, mode: Mode) {
    forall v :: Active(s, v) ==>
      ChunksOf(s.chunks, v) != [] && (mode.production ==> AllEmbedded(ChunksOf(s.chunks, v)))
  }

  ghost predicate StoreOk(o: Outside, mode: Mode, s: Store) {
    && Fresh(o, s.chunks)
    && (mode.embeddings ==> AllEmbedded(s.chunks))
    && (forall i :: 0 <= i < |s.chunks| ==> s.chunks[i].version in s.releases)
    && (forall v :: v in s.releases ==> HasBare(o, s, v))
    && OneActive(s) && ActiveUsable(s, mode)
  }

  ghost predicate DraftOk(o: Outside, mode: Mode, version: string, articles: seq<Article>, prepared: seq<Chunk>) {
    && Fresh(o, prepared)
    && (mode.embeddings ==> AllEmbedded(prepared))
    && AllBare(prepared) == ReleaseChunks(o, version, articles)
  }

  lemma {:induction false} ArticlePieces(o: Outside, version: string, a: Article, ws: seq<string>, offset: nat)
    ensures forall c :: c in ArticleChunks(o, version, a, ws, offset) ==>
              c.version == version && c.hash == o.digest(c.content)
    decreases |ws| - offset
  {
    if offset < |ws| { ArticlePieces(o, version, a, ws, offset + CHUNK_WORDS); }
  }

  lemma {:induction false} ReleasePieces(o: Outside, version: string, articles: seq<Article>)
    ensures forall c :: c in ReleaseChunks(o, version, articles) ==>
              c.version == version && c.hash == o.digest(c.content)
  {
    if articles != [] {
      var a := articles[|articles| - 1];
      ReleasePieces(o, version, articles[..|articles| - 1]);
      ArticlePieces(o, version, a, Words(a.content, o.space), 0);
    }
  }

  lemma BarePieces(o: Outside, version: string, articles: seq<Article>, prepared: seq<Chunk>)
    requires AllBare(prepared) == ReleaseChunks(o, version, articles)
    ensures forall i :: 0 <= i < |prepared| ==>
              prepared[i].version == version && prepared[i].hash == o.digest(prepared[i].content)
  {
    ReleasePieces(o, version, articles);
    forall i | 0 <= i < |prepared|
      ensures prepared[i].version == version && prepared[i].hash == o.digest(prepared[i].content)
    {
      assert AllBare(prepared)[i] in ReleaseChunks(o, version, articles);
    }
  }

  /** Reusing cached vectors gives the same vectors as asking the service again. */
  lemma CachingIsInvisible(o: Outside, mode: Mode, version: string, articles: seq<Article>, stored: seq<Chunk>,
                           prepared: seq<Chunk>)
    requires Faithful(o) && Fresh(o, stored) && PreparedFrom(o, mode, version, articles, CacheOf(stored), prepared)
    ensures DraftOk(o, mode, version, articles, prepared)
    ensures mode.embeddings ==> PreparedFrom(o, mode, version, articles, map[], prepared)
  {
    CacheIsFresh(o, stored);
    BarePieces(o, version, articles, prepared);
  }

  lemma {:induction false} ChunksOfSum(a: seq<Chunk>, b: seq<Chunk>, version: string)
    ensures ChunksOf(a + b, version) == ChunksOf(a, version) + ChunksOf(b, version)
  {
    if b == [] {
      assert a + b == a;
    } else {
      assert (a + b)[..|a + b| - 1] == a + b[..|b| - 1];
      ChunksOfSum(a, b[..|b| - 1], version);
    }
  }

  lemma {:induction false} ChunksOfOne(chunks: seq<Chunk>, version: string, of: string)
    requires forall i :: 0 <= i < |chunks| ==> chunks[i].version == version
    ensures ChunksOf(chunks, of) == if of == version then chunks else []
  {
    if chunks != [] {
      ChunksOfOne(chunks[..|chunks| - 1], version, of);
      assert chunks == chunks[..|chunks| - 1] + [chunks[|chunks| - 1]];
    }
  }

  lemma {:induction false} ChunksOfOther(chunks: seq<Chunk>, version: string)
    requires forall i :: 0 <= i < |chunks| ==> chunks[i].version != version
    ensures ChunksOf(chunks, version) == []
  {
    if chunks != [] { ChunksOfOther(chunks[..|chunks| - 1], version); }
  }

  /** The chunks of each release after an insertion. */
  lemma ChunksAfterInsert(o: Outside, mode: Mode, s: Store, version: string, articles: seq<Article>,
                          prepared: seq<Chunk>, v: string)
    requires StoreOk(o, mode, s) && DraftOk(o, mode, version, articles, prepared) && version !in s.releases
    ensures ChunksOf(s.chunks + prepared, v) == if v == version then prepared else ChunksOf(s.chunks, v)
  {
    hide HasBare, OneActive, ActiveUsable, Fresh, AllEmbedded;
    BarePieces(o, version, articles, prepared);
    ChunksOfSum(s.chunks, prepared, v);
    ChunksOfOne(prepared, version, v);
    if v == version { ChunksOfOther(s.chunks, version); }
  }

  lemma InsertKeeps(o: Outside, mode: Mode, s: Store, version: string, articles: seq<Article>, prepared: seq<Chunk>)
    requires StoreOk(o, mode, s) && DraftOk(o, mode, version, articles, prepared)
    ensures StoreOk(o, mode, Inserted(s, version, articles, prepared))
  {
    if version !in s.releases {
      hide ChunksOf, ReleaseChunks, HasBare, OneActive, ActiveUsable, Fresh, AllEmbedded;
      FreshSum(o, s.chunks, prepared);
      InsertKeepsReleases(o, mode, s, version, articles, prepared);
      InsertKeepsVersions(o, s, version, articles, prepared);
    }
  }

  lemma FreshSum(o: Outside, a: seq<Chunk>, b: seq<Chunk>)
    requires Fresh(o, a) && Fresh(o, b)
    ensures Fresh(o, a + b) && (AllEmbedded(a) && AllEmbedded(b) ==> AllEmbedded(a + b))
  {
  }

  lemma InsertKeepsVersions(o: Outside, s: Store, version: string, articles: seq<Article>, prepared: seq<Chunk>)
    requires (forall i :: 0 <= i < |s.chunks| ==> s.chunks[i].version in s.releases) && version !in s.releases
    requires AllBare(prepared) == ReleaseChunks(o, version, articles)
    ensures var t := Inserted(s, version, articles, prepared);
            forall i :: 0 <= i < |t.chunks| ==> t.chunks[i].version in t.releases
  {
    hide ReleaseChunks, AllBare;
    BarePieces(o, version, articles, prepared);
  }

  lemma InsertKeepsReleases(o: Outside, mode: Mode, s: Store, version: string, articles: seq<Article>,
                            prepared: seq<Chunk>)
    requires StoreOk(o, mode, s) && DraftOk(o, mode, version, articles, prepared) && version !in s.releases
    ensures var t := Inserted(s, version, articles, prepared);
            (forall v :: v in t.releases ==> HasBare(o, t, v)) && OneActive(t) && ActiveUsable(t, mode)
  {
    hide ChunksOf, ReleaseChunks, Fresh, AllEmbedded;
    var t := Inserted(s, version, articles, prepared);
    forall v | v in t.releases
      ensures HasBare(o, t, v) && (Active(t, v) ==> Active(s, v))
      ensures Active(t, v) ==> ChunksOf(t.chunks, v) == ChunksOf(s.chunks, v)
    {
      ChunksAfterInsert(o, mode, s, version, articles, prepared, v);
      if v != version { assert HasBare(o, s, v); }
    }
  }

  lemma SwitchKeeps(o: Outside, mode: Mode, s: Store, version: string)
    requires StoreOk(o, mode, s) && version in s.releases && ChunksOf(s.chunks, version) != []
    requires mode.production ==> AllEmbedded(ChunksOf(s.chunks, version))
    ensures StoreOk(o, mode, Switched(s, version)) && Active(Switched(s, version), version)
  {
    hide ChunksOf, ReleaseChunks, Fresh, AllEmbedded;
    var t := Switched(s, version);
    forall v | v in t.releases ensures HasBare(o, t, v) && (Active(t, v) ==> v == version) {
      assert HasBare(o, s, v);
    }
  }

  // ----- interleaved runs

  /** A prepared ingest that has not written yet. */
  datatype Draft = Draft(version: string, articles: seq<Article>, prepared: seq<Chunk>)

  datatype World = World(store: Store, drafts: seq<Draft>)

  datatype Action = Begin(draft: Draft) | Write(d: nat) | Activate(version: string)

  ghost predicate Enabled(o: Outside, mode: Mode, w: World, a: Action) {
    match a
    case Begin(d) =>
      && d.version !in w.store.releases && (mode.production ==> mode.embeddings)
      && PreparedFrom(o, mode, d.version, d.articles, CacheOf(w.store.chunks), d.prepared)
    case Write(d) => d < |w.drafts|
    case Activate(v) =>
      && v in w.store.releases && ChunksOf(w.store.chunks, v) != []
      && (mode.production ==> AllEmbedded(ChunksOf(w.store.chunks, v)))
  }

  function Next(w: World, a: Action): World
    requires a.Write? ==> a.d < |w.drafts|
  {
    match a
    case Begin(d) => w.(drafts := w.drafts + [d])
    case Write(d) => w.(store := Inserted(w.store, w.drafts[d].version, w.drafts[d].articles, w.drafts[d].prepared))
    case Activate(v) => w.(store := Switched(w.store, v))
  }

  ghost predicate WorldOk(o: Outside, mode: Mode, w: World) {
    && StoreOk(o, mode, w.store)
    && forall d :: 0 <= d < |w.drafts| ==>
         DraftOk(o, mode, w.drafts[d].version, w.drafts[d].articles, w.drafts[d].prepared)
  }

  /** Releases stay what they were when ingested, and something active means something active for good. */
  ghost predicate Continues(s: Store, t: Store) {
    && (forall v :: v in s.releases ==> v in t.releases && t.releases[v].articles == s.releases[v].articles)
    && |s.chunks| <= |t.chunks| && t.chunks[..|s.chunks|] == s.chunks
    && ((exists v :: Active(s, v)) ==> exists v :: Active(t, v))
  }

  lemma StepKeeps(o: Outside, mode: Mode, w: World, a: Action)
    requires Faithful(o) && WorldOk(o, mode, w) && Enabled(o, mode, w, a)
    ensures WorldOk(o, mode, Next(w, a)) && Continues(w.store, Next(w, a).store)
  {
    hide DraftOk, ChunksOf, AllEmbedded, PreparedFrom, HasBare, Fresh, OneActive, ActiveUsable, Faithful;
    match a
    case Begin(d) =>
      CachingIsInvisible(o, mode, d.version, d.articles, w.store.chunks, d.prepared);
    case Write(d) =>
      var draft := w.drafts[d];
      InsertKeeps(o, mode, w.store, draft.version, draft.articles, draft.prepared);
      if v :| Active(w.store, v) { assert Active(Next(w, a).store, v); }
    case Activate(v) =>
      SwitchKeeps(o, mode, w.store, v);
  }

  lemma ContinuesOn(s: Store, t: Store, u: Store)
    requires Continues(s, t) && Continues(t, u)
    ensures Continues(s, u)
  {
    assert u.chunks[..|s.chunks|] == u.chunks[..|t.chunks|][..|s.chunks|];
  }

  datatype Run = Run(worlds: seq<World>, actions: seq<Action>)

  ghost predicate RunStep(o: Outside, mode: Mode, run: Run, i: nat)
    requires |run.worlds| == |run.actions| + 1 && i < |run.actions|
  {
    Enabled(o, mode, run.worlds[i], run.actions[i]) && run.worlds[i + 1] == Next(run.worlds[i], run.actions[i])
  }

  ghost predicate IsRun(o: Outside, mode: Mode, run: Run) {
    && |run.worlds| == |run.actions| + 1
    && run.worlds[0] == World(Store(map[], []), [])
    && forall i :: 0 <= i < |run.actions| ==> RunStep(o, mode, run, i)
  }

  lemma {:induction false} RunIsSafe(o: Outside, mode: Mode, run: Run, n: nat)
    requires Faithful(o) && IsRun(o, mode, run) && n < |run.worlds|
    ensures WorldOk(o, mode, run.worlds[n])
  {
    if n > 0 {
      RunIsSafe(o, mode, run, n - 1);
      assert RunStep(o, mode, run, n - 1);
      StepKeeps(o, mode, run.worlds[n - 1], run.actions[n - 1]);
    }
  }

  lemma {:induction false} RunContinues(o: Outside, mode: Mode, run: Run, i: nat, j: nat)
    requires Faithful(o) && IsRun(o, mode, run) && i <= j < |run.worlds|
    ensures Continues(run.worlds[i].store, run.worlds[j].store)
    decreases j - i
  {
    hide WorldOk, Faithful, Enabled;
    if i < j {
      RunContinues(o, mode, run, i, j - 1);
      RunIsSafe(o, mode, run, j - 1);
      assert RunStep(o, mode, run, j - 1);
      StepKeeps(o, mode, run.worlds[j - 1], run.actions[j - 1]);
      hide Continues;
      ContinuesOn(run.worlds[i].store, run.worlds[j - 1].store, run.worlds[j].store);
    }
  }

  /** Once a release has been active, at every later time exactly one is: ingested, with chunks, and in
      production with a vector for every chunk. */
  lemma ExactlyOneActive(o: Outside, mode: Mode, run: Run, i: nat, j: nat, v: string) returns (w: string)
    requires Faithful(o) && IsRun(o, mode, run) && i <= j < |run.worlds| && Active(run.worlds[i].store, v)
    ensures Active(run.worlds[j].store, w) && forall u :: Active(run.worlds[j].store, u) ==> u == w
    ensures ChunksOf(run.worlds[j].store.chunks, w) != []
    ensures mode.production ==> AllEmbedded(ChunksOf(run.worlds[j].store.chunks, w))
  {
    hide IsRun, Faithful, HasBare, Fresh;
    RunContinues(o, mode, run, i, j);
    RunIsSafe(o, mode, run, j);
    w :| Active(run.worlds[j].store, w);
  }

  /** With the embedding service configured every stored chunk has, at all times, the vector the service
      gives for its text. */
  lemma EveryVectorIsFresh(o: Outside, mode: Mode, run: Run, n: nat, i: nat)
    requires Faithful(o) && IsRun(o, mode, run) && n < |run.worlds| && i < |run.worlds[n].store.chunks|
    ensures var c := run.worlds[n].store.chunks[i];
            && (c.embedding.Some? ==> c.embedding.value == o.embed(c.content))
            && (mode.embeddings ==> c.embedding == Some(o.embed(c.content)))
  {
    hide IsRun, Faithful, HasBare, OneActive, ActiveUsable;
    RunIsSafe(o, mode, run, n);
  }

  // ----- reading a release back

  function ArticleWords(o: Outside, articles: seq<Article>): seq<string> {
    if articles == [] then []
    else ArticleWords(o, articles[..|articles| - 1]) + Words(articles[|articles| - 1].content, o.space)
  }

  lemma {:induction false} WordsOfSum(o: Outside, a: seq<Chunk>, b: seq<Chunk>)
    ensures WordsOf(o, a + b) == WordsOf(o, a) + WordsOf(o, b)
  {
    if a == [] {
      assert a + b == b;
    } else {
      assert (a + b)[1..] == a[1..] + b;
      WordsOfSum(o, a[1..], b);
    }
  }

  lemma {:induction false} ConcatenatedSum(a: seq<seq<string>>, b: seq<seq<string>>)
    ensures Concatenated(a + b) == Concatenated(a) + Concatenated(b)
  {
    if a == [] {
      assert a + b == b;
    } else {
      assert (a + b)[1..] == a[1..] + b;
      ConcatenatedSum(a[1..], b);
    }
  }

  lemma {:induction false} WordsOfBare(o: Outside, chunks: seq<Chunk>)
    ensures WordsOf(o, AllBare(chunks)) == WordsOf(o, chunks)
  {
    if chunks != [] {
      assert AllBare(chunks)[1..] == AllBare(chunks[1..]);
      WordsOfBare(o, chunks[1..]);
    }
  }

  lemma {:induction false} ReleaseChunksReadBack(o: Outside, version: string, articles: seq<Article>)
    requires Faithful(o)
    ensures Concatenated(WordsOf(o, ReleaseChunks(o, version, articles))) == ArticleWords(o, articles)
  {
    if articles != [] {
      var before, a := articles[..|articles| - 1], articles[|articles| - 1];
      var own := ArticleChunks(o, version, a, Words(a.content, o.space), 0);
      ReleaseChunksReadBack(o, version, before);
      ChunksReadBackTheArticle(o, version, a);
      WordsOfSum(o, ReleaseChunks(o, version, before), own);
      ConcatenatedSum(WordsOf(o, ReleaseChunks(o, version, before)), WordsOf(o, own));
    }
  }

  /** The texts one after the other. */
  function AllContent(chunks: seq<Chunk>): string {
    if chunks == [] then "" else chunks[0].content + AllContent(chunks[1..])
  }

  function AllText(articles: seq<Article>): string {
    if articles == [] then "" else AllText(articles[..|articles| - 1]) + articles[|articles| - 1].content
  }

  lemma {:induction false} ContentCharacters(o: Outside, chunks: seq<Chunk>)
    ensures Glue(Concatenated(WordsOf(o, chunks))) == NonSpace(AllContent(chunks), o.space)
  {
    if chunks != [] {
      ContentCharacters(o, chunks[1..]);
      WordsKeepCharacters(chunks[0].content, o.space);
      NonSpaceSum(chunks[0].content, AllContent(chunks[1..]), o.space);
      var parts := WordsOf(o, chunks);
      assert parts[1..] == WordsOf(o, chunks[1..]);
      GlueSum(parts[0], Concatenated(parts[1..]));
    }
  }

  lemma {:induction false} TextCharacters(o: Outside, articles: seq<Article>)
    ensures Glue(ArticleWords(o, articles)) == NonSpace(AllText(articles), o.space)
  {
    if articles != [] {
      var before, a := articles[..|articles| - 1], articles[|articles| - 1];
      TextCharacters(o, before);
      WordsKeepCharacters(a.content, o.space);
      NonSpaceSum(AllText(before), a.content, o.space);
      GlueSum(ArticleWords(o, before), Words(a.content, o.space));
    }
  }

  /** Whatever ran in between, the stored chunks of a release hold every character of its articles that is not
      whitespace, once and in order, and spell their words; concurrent ingests of one version add nothing
      twice. */
  lemma ReleaseReadsBack(o: Outside, mode: Mode, run: Run, n: nat, version: string)
    requires Faithful(o) && IsRun(o, mode, run) && n < |run.worlds| && version in run.worlds[n].store.releases
    ensures var s := run.worlds[n].store;
            && NonSpace(AllContent(ChunksOf(s.chunks, version)), o.space)
               == NonSpace(AllText(s.releases[version].articles), o.space)
            && Concatenated(WordsOf(o, ChunksOf(s.chunks, version))) == ArticleWords(o, s.releases[version].articles)
  {
    hide IsRun, OneActive, ActiveUsable, Fresh;
    RunIsSafe(o, mode, run, n);
    var s := run.worlds[n].store;
    ContentCharacters(o, ChunksOf(s.chunks, version));
    TextCharacters(o, s.releases[version].articles);
    assert HasBare(o, s, version);
    WordsOfBare(o, ChunksOf(s.chunks, version));
    ReleaseChunksReadBack(o, version, s.releases[version].articles);
  }

  /** An ingested release is refused for having no chunks exactly when its articles have no word. */
  lemma NoChunksExactlyWithoutWords(o: Outside, mode: Mode, s: Store, version: string)
    requires Faithful(o) && StoreOk(o, mode, s) && version in s.releases
    ensures ChunksOf(s.chunks, version) == [] <==> ArticleWords(o, s.releases[version].articles) == []
  {
    hide OneActive, ActiveUsable, Fresh;
    assert HasBare(o, s, version);
    ReleaseIsEmptyExactly(o, version, s.releases[version].articles);
  }

  lemma {:induction false} ReleaseIsEmptyExactly(o: Outside, version: string, articles: seq<Article>)
    ensures ReleaseChunks(o, version, articles) == [] <==> ArticleWords(o, articles) == []
  {
    if articles != [] {
      ReleaseIsEmptyExactly(o, version, articles[..|articles| - 1]);
    }
  }
}
