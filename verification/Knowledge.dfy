/** Ingesting and activating releases of the knowledge base. */
module Knowledge {
  import opened Wrappers
  import opened Chunking

  datatype Vector = Vector(values: seq<real>)

  /** What lies outside: whitespace, the digest and the embedding service. */
  datatype Outside = Outside(space: char -> bool, digest: string -> string, embed: string -> Vector)

  ghost predicate Faithful(o: Outside) {
    o.space(' ') && forall a: string, b: string :: o.digest(a) == o.digest(b) ==> a == b
  }

  datatype Article = Article(id: string, title: string, url: string, content: string)

  datatype Chunk = Chunk(version: string, article: string, title: string, url: string, offset: nat,
                         content: string, hash: string, embedding: Option<Vector>)

  /** The manifest pins the articles by their digests, so they stand for it. */
  datatype Release = Release(articles: seq<Article>, active: bool)

  datatype Store = Store(releases: map<string, Release>, chunks: seq<Chunk>)

  type Cache = map<(string, string), Vector>

  datatype Mode = Mode(production: bool, embeddings: bool)

  // ----- what a release's chunks are

  function Piece(o: Outside, version: string, a: Article, ws: seq<string>, offset: nat): Chunk
    requires offset < |ws|
  {
    var content := Join(ws[offset..End(ws, offset)]);
    Chunk(version, a.id, a.title, a.url, offset, content, o.digest(content), None)
  }

  function ArticleChunks(o: Outside, version: string, a: Article, ws: seq<string>, offset: nat): seq<Chunk>
    decreases |ws| - offset
  {
    if offset >= |ws| then []
    else [Piece(o, version, a, ws, offset)] + ArticleChunks(o, version, a, ws, offset + CHUNK_WORDS)
  }

  function ReleaseChunks(o: Outside, version: string, articles: seq<Article>): seq<Chunk> {
    if articles == [] then []
    else
      var a := articles[|articles| - 1];
      ReleaseChunks(o, version, articles[..|articles| - 1]) + ArticleChunks(o, version, a, Words(a.content, o.space), 0)
  }

  function Bare(c: Chunk): Chunk { c.(embedding := None) }

  function AllBare(chunks: seq<Chunk>): (r: seq<Chunk>)
    ensures |r| == |chunks| && forall i :: 0 <= i < |r| ==> r[i] == Bare(chunks[i])
  {
    seq(|chunks|, i requires 0 <= i < |chunks| => Bare(chunks[i]))
  }

  function WordsOf(o: Outside, chunks: seq<Chunk>): seq<seq<string>> {
    if chunks == [] then [] else [Words(chunks[0].content, o.space)] + WordsOf(o, chunks[1..])
  }

  lemma {:induction false} ArticleChunksHoldTheSlices(o: Outside, version: string, a: Article, ws: seq<string>,
                                                      offset: nat)
    requires Faithful(o) && forall i :: 0 <= i < |ws| ==> IsWord(ws[i], o.space)
    ensures WordsOf(o, ArticleChunks(o, version, a, ws, offset)) == Slices(ws, offset)
    decreases |ws| - offset
  {
    if offset < |ws| {
      var slice := ws[offset..End(ws, offset)];
      assert forall i :: 0 <= i < |slice| ==> slice[i] == ws[offset + i];
      JoinRoundTrip(slice, o.space);
      ArticleChunksHoldTheSlices(o, version, a, ws, offset + CHUNK_WORDS);
      var chunks := ArticleChunks(o, version, a, ws, offset);
      assert chunks[1..] == ArticleChunks(o, version, a, ws, offset + CHUNK_WORDS);
    }
  }

  /** The words of an article's stored chunks, put together, are the article's words; no chunk is empty or
      longer than 180 words. */
  lemma ChunksReadBackTheArticle(o: Outside, version: string, a: Article)
    requires Faithful(o)
    ensures var words := Words(a.content, o.space);
            var parts := WordsOf(o, ArticleChunks(o, version, a, words, 0));
            Concatenated(parts) == words && forall i :: 0 <= i < |parts| ==> 1 <= |parts[i]| <= 180
  {
    var words := Words(a.content, o.space);
    ArticleChunksHoldTheSlices(o, version, a, words, 0);
    SlicesPartitionTheWords(words, 0);
    assert words[0..] == words;
  }

  // ----- the pieces of a release, said of its articles

  /** Piece `k` of an article: words 180 k up to 180 k + 180 or the end, joined by spaces, with the article's id,
      title and URL, its place, and its digest. */
  ghost predicate IsPiece(o: Outside, version: string, a: Article, k: nat, c: Chunk) {
    var words := Words(a.content, o.space);
    var end := if 180 * k + 180 < |words| then 180 * k + 180 else |words|;
    && 180 * k < |words|
    && c == Chunk(version, a.id, a.title, a.url, 180 * k, c.content, o.digest(c.content), None)
    && c.content == Join(words[180 * k..end])
  }

  ghost predicate PieceFrom(o: Outside, version: string, a: Article, n: nat, c: Chunk) {
    exists k: nat :: n <= k && IsPiece(o, version, a, k, c)
  }

  /** The pieces of these articles, all of them and nothing else. */
  ghost predicate PiecesOf(o: Outside, version: string, articles: seq<Article>, pieces: seq<Chunk>) {
    forall c :: c in pieces <==> PieceOfSome(o, version, articles, c)
  }

  ghost predicate PieceOfSome(o: Outside, version: string, articles: seq<Article>, c: Chunk) {
    exists a :: a in articles && PieceFrom(o, version, a, 0, c)
  }

  lemma PieceOfLast(o: Outside, version: string, articles: seq<Article>, c: Chunk)
    requires articles != []
    ensures var last := |articles| - 1;
            PieceOfSome(o, version, articles, c)
            <==> PieceOfSome(o, version, articles[..last], c) || PieceFrom(o, version, articles[last], 0, c)
  {
    hide PieceFrom;
    var last := |articles| - 1;
    assert forall x :: x in articles <==> x in articles[..last] || x == articles[last];
  }

  lemma NextPieceFrom(o: Outside, version: string, a: Article, n: nat, c: Chunk)
    ensures PieceFrom(o, version, a, n, c) <==> IsPiece(o, version, a, n, c) || PieceFrom(o, version, a, n + 1, c)
  {
    hide IsPiece;
    if PieceFrom(o, version, a, n, c) {
      var k: nat :| n <= k && IsPiece(o, version, a, k, c);
      if k != n { assert n + 1 <= k; }
    }
  }

  lemma NoPieceFrom(o: Outside, version: string, a: Article, n: nat, c: Chunk)
    requires 180 * n >= |Words(a.content, o.space)|
    ensures !PieceFrom(o, version, a, n, c)
  {
    hide Words, Join;
  }

  lemma {:induction false} ArticlePiecesAre(o: Outside, version: string, a: Article, n: nat)
    ensures forall c :: c in ArticleChunks(o, version, a, Words(a.content, o.space), 180 * n) <==>
                        PieceFrom(o, version, a, n, c)
    decreases |Words(a.content, o.space)| - 180 * n
  {
    hide Words, Join, PieceFrom;
    var words := Words(a.content, o.space);
    var pieces := ArticleChunks(o, version, a, words, 180 * n);
    if 180 * n < |words| {
      ArticlePiecesAre(o, version, a, n + 1);
      var rest := ArticleChunks(o, version, a, words, 180 * (n + 1));
      assert pieces == [Piece(o, version, a, words, 180 * n)] + rest;
      forall c ensures c in pieces <==> PieceFrom(o, version, a, n, c) {
        NextPieceFrom(o, version, a, n, c);
        assert IsPiece(o, version, a, n, c) <==> c == Piece(o, version, a, words, 180 * n);
      }
    } else {
      forall c ensures !PieceFrom(o, version, a, n, c) { NoPieceFrom(o, version, a, n, c); }
    }
  }

  lemma NoArticles(o: Outside, version: string)
    ensures PiecesOf(o, version, [], [])
  {
  }

  lemma {:induction false} ReleasePiecesAre(o: Outside, version: string, articles: seq<Article>)
    ensures PiecesOf(o, version, articles, ReleaseChunks(o, version, articles))
  {
    hide PieceFrom, ArticleChunks, PieceOfSome;
    NoArticles(o, version);
    if articles != [] {
      var last := |articles| - 1;
      var before, a := articles[..last], articles[last];
      ReleasePiecesAre(o, version, before);
      ArticlePiecesAre(o, version, a, 0);
      var own := ArticleChunks(o, version, a, Words(a.content, o.space), 0);
      forall c ensures c in ReleaseChunks(o, version, articles) <==> PieceOfSome(o, version, articles, c) {
        assert c in ReleaseChunks(o, version, articles) <==> c in ReleaseChunks(o, version, before) || c in own;
        PieceOfLast(o, version, articles, c);
      }
    }
  }

  // ----- the embedding cache

  /** The dictionary over the stored chunks that have a vector. */
  function CacheOf(chunks: seq<Chunk>): Cache {
    if chunks == [] then map[]
    else
      var before, c := CacheOf(chunks[..|chunks| - 1]), chunks[|chunks| - 1];
      if c.embedding.Some? then before[(c.article, c.hash) := c.embedding.value] else before
  }

  /** Vectors are those of the content they are stored with. */
  ghost predicate Fresh(o: Outside, chunks: seq<Chunk>) {
    forall i :: 0 <= i < |chunks| ==>
      chunks[i].hash == o.digest(chunks[i].content)
      && (chunks[i].embedding.Some? ==> chunks[i].embedding.value == o.embed(chunks[i].content))
  }

  ghost predicate CacheFresh(o: Outside, cache: Cache) {
    forall article: string, content: string :: (article, o.digest(content)) in cache ==>
      cache[(article, o.digest(content))] == o.embed(content)
  }

  /** A cached vector is the one the service would give. */
  lemma {:induction false} CacheIsFresh(o: Outside, chunks: seq<Chunk>)
    requires Faithful(o) && Fresh(o, chunks)
    ensures CacheFresh(o, CacheOf(chunks))
  {
    if chunks != [] {
      CacheIsFresh(o, chunks[..|chunks| - 1]);
    }
  }

  /** The dictionary has a vector for an article's text exactly if some stored chunk of that article and text
      has one, and then it is one of theirs. */
  lemma {:induction false} CacheIsStored(chunks: seq<Chunk>, article: string, hash: string)
    ensures (article, hash) in CacheOf(chunks) <==> exists i :: 0 <= i < |chunks| && HasVector(chunks[i], article, hash)
    ensures (article, hash) in CacheOf(chunks) ==>
              exists i :: 0 <= i < |chunks| && HasVector(chunks[i], article, hash)
                          && chunks[i].embedding == Some(CacheOf(chunks)[(article, hash)])
  {
    if chunks != [] {
      var last := |chunks| - 1;
      CacheIsStored(chunks[..last], article, hash);
      if HasVector(chunks[last], article, hash) {
        assert CacheOf(chunks)[(article, hash)] == chunks[last].embedding.value;
      } else {
        assert (article, hash) in CacheOf(chunks) <==> (article, hash) in CacheOf(chunks[..last]);
        assert forall i :: 0 <= i < last ==> chunks[i] == chunks[..last][i];
      }
    }
  }

  predicate HasVector(c: Chunk, article: string, hash: string) {
    c.article == article && c.hash == hash && c.embedding.Some?
  }

  function Cached(cache: Cache, c: Chunk): Chunk {
    if (c.article, c.hash) in cache then c.(embedding := Some(cache[(c.article, c.hash)])) else c.(embedding := None)
  }

  // ----- preparing a release

  /** The loops over articles and offsets. */
  method Prepare(o: Outside, version: string, articles: seq<Article>, cache: Cache) returns (prepared: seq<Chunk>)
    ensures PiecesOf(o, version, articles, AllBare(prepared))
    ensures AllBare(prepared) == ReleaseChunks(o, version, articles)
    ensures forall i :: 0 <= i < |prepared| ==> prepared[i] == Cached(cache, prepared[i])
  {
    ReleasePiecesAre(o, version, articles);
    hide PiecesOf, ReleaseChunks, ArticleChunks, AllBare, Cached, Words;
    prepared := [];
    NoArticles(o, version);
    BareNothing();
    NoReleaseChunks(o, version, articles);
    for k := 0 to |articles|
      invariant AllBare(prepared) == ReleaseChunks(o, version, articles[..k])
      invariant forall i :: 0 <= i < |prepared| ==> prepared[i] == Cached(cache, prepared[i])
    {
      var part := PrepareArticle(o, version, articles[k], cache);
      NextArticle(o, version, articles, k);
      BareSum(prepared, part);
      prepared := prepared + part;
    }
    assert articles[..|articles|] == articles;
  }

  method PrepareArticle(o: Outside, version: string, a: Article, cache: Cache) returns (prepared: seq<Chunk>)
    ensures AllBare(prepared) == ArticleChunks(o, version, a, Words(a.content, o.space), 0)
    ensures forall i :: 0 <= i < |prepared| ==> prepared[i] == Cached(cache, prepared[i])
  {
    hide Words, Join, AllBare, Cached;
    var words := Words(a.content, o.space);
    prepared := [];
    BareNothing();
    var offset := 0;
    while offset < |words|
      invariant AllBare(prepared) + ArticleChunks(o, version, a, words, offset)
             == ArticleChunks(o, version, a, words, 0)
      invariant forall i :: 0 <= i < |prepared| ==> prepared[i] == Cached(cache, prepared[i])
    {
      var content := Join(words[offset..End(words, offset)]);
      var hash := o.digest(content);
      var vector := if (a.id, hash) in cache then Some(cache[(a.id, hash)]) else None;
      var chunk := Chunk(version, a.id, a.title, a.url, offset, content, hash, vector);
      BareNext(prepared, chunk);
      CachedAs(cache, chunk);
      NextPiece(o, version, a, words, offset, AllBare(prepared), ArticleChunks(o, version, a, words, 0));
      prepared := prepared + [chunk];
      offset := offset + CHUNK_WORDS;
    }
  }

  lemma NoReleaseChunks(o: Outside, version: string, articles: seq<Article>)
    ensures ReleaseChunks(o, version, articles[..0]) == []
  {
  }

  lemma NextArticle(o: Outside, version: string, articles: seq<Article>, k: nat)
    requires k < |articles|
    ensures ReleaseChunks(o, version, articles[..k + 1])
         == ReleaseChunks(o, version, articles[..k])
            + ArticleChunks(o, version, articles[k], Words(articles[k].content, o.space), 0)
  {
    assert articles[..k + 1][..k] == articles[..k];
  }

  lemma BareSum(a: seq<Chunk>, b: seq<Chunk>)
    ensures AllBare(a + b) == AllBare(a) + AllBare(b)
  {
  }

  lemma BareNothing()
    ensures AllBare([]) == []
  {
  }

  lemma BareNext(chunks: seq<Chunk>, c: Chunk)
    ensures AllBare(chunks + [c]) == AllBare(chunks) + [Bare(c)]
  {
  }

  lemma CachedAs(cache: Cache, c: Chunk)
    requires c.embedding == if (c.article, c.hash) in cache then Some(cache[(c.article, c.hash)]) else None
    ensures c == Cached(cache, c)
  {
  }

  lemma NextPiece(o: Outside, version: string, a: Article, ws: seq<string>, offset: nat, before: seq<Chunk>,
                  all: seq<Chunk>)
    requires offset < |ws| && before + ArticleChunks(o, version, a, ws, offset) == all
    ensures before + [Piece(o, version, a, ws, offset)] + ArticleChunks(o, version, a, ws, offset + CHUNK_WORDS) == all
  {
  }

  const BATCH: nat := 32

  /** The batches sent to the embedding service: each chunk without a vector gets the one of its own text. */
  method EmbedChanged(o: Outside, prepared: seq<Chunk>) returns (embedded: seq<Chunk>)
    ensures AllBare(embedded) == AllBare(prepared)
    ensures forall i :: 0 <= i < |prepared| ==>
              embedded[i].embedding
              == if prepared[i].embedding.Some? then prepared[i].embedding else Some(o.embed(prepared[i].content))
  {
    var changed := Changed(prepared);
    embedded := prepared;
    var offset := 0;
    while offset < |changed|
      invariant |embedded| == |prepared|
      invariant forall i :: 0 <= i < |prepared| ==>
                  embedded[i] == if i in changed[..if offset < |changed| then offset else |changed|]
                                 then prepared[i].(embedding := Some(o.embed(prepared[i].content))) else prepared[i]
    {
      var end := if offset + BATCH < |changed| then offset + BATCH else |changed|;
      var batch := changed[offset..end];
      assert forall j :: 0 <= j < |batch| ==> batch[j] in changed;
      var vectors := seq(|batch|, i requires 0 <= i < |batch| => o.embed(prepared[batch[i]].content));
      for j := 0 to |batch|
        invariant |embedded| == |prepared|
        invariant forall i :: 0 <= i < |prepared| ==>
                    embedded[i] == if i in changed[..offset + j]
                                   then prepared[i].(embedding := Some(o.embed(prepared[i].content))) else prepared[i]
      {
        assert changed[..offset + j + 1] == changed[..offset + j] + [batch[j]];
        embedded := embedded[batch[j] := embedded[batch[j]].(embedding := Some(vectors[j]))];
      }
      offset := offset + BATCH;
    }
    assert changed[..|changed|] == changed;
  }

  /** `[chunk for chunk in prepared if chunk.embedding is None]`, by position. */
  function Changed(prepared: seq<Chunk>): (changed: seq<nat>)
    ensures forall i: nat :: i in changed <==> i < |prepared| && prepared[i].embedding.None?
  {
    if prepared == [] then []
    else
      var n := |prepared| - 1;
      Changed(prepared[..n]) + if prepared[n].embedding.None? then [n] else []
  }
}
