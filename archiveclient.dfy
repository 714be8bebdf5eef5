/** The front end's Internet Archive adapter (lib/internetArchiveApi.ts, class
    `InternetArchiveAPI`): picking a file to play, turning search documents into songs, and
    the popular list's first twenty documents. The HTTP replies are inputs: one search reply,
    and a function from an identifier to the reply of its metadata request. The year of a
    date comes from the host's `Date`, which is a parameter too. */
module ArchiveClient {
  import opened Text
  import opened Songs
  import Seqs
  import PercentEncoding

  const BaseUrl := "https://archive.org"

  // ---------------------------------------------------------------- getSongUrl

  /** A file entry of a metadata reply; absent fields are `None`. */
  datatype ClientFile = ClientFile(name: Option<string>, format: Option<string>)

  /** The reply to `GET /metadata/{identifier}/files`: a failure (network error, timeout or
      an error status, which axios throws on), or a body whose `files` may be absent. */
  datatype FilesReply = Failed | Files(files: Option<seq<ClientFile>>)

  /** The test of `getSongUrl`'s `find`: the format is exactly "VBR MP3" or "MP3", or the
      name is a non-empty text whose lower-cased form ends with ".mp3". */
  predicate IsMp3File(f: ClientFile) {
    f.format == Some("VBR MP3") || f.format == Some("MP3") ||
    (f.name.Some? && f.name.value != "" && EndsWith(Lower(f.name.value), ".mp3"))
  }

  /** `encodeURIComponent(file.name)`, where an absent name is the text "undefined". */
  function EncodedName(f: ClientFile): string {
    PercentEncoding.EncodeUriComponent(if f.name.Some? then f.name.value else "undefined")
  }

  /** `getSongUrl(identifier)`: the download URL of the first file, in list order, that
      passes the test; null when the request fails, `files` is absent or no file passes.
      All three tests are one pass: there is no priority among them. */
  function GetSongUrl(identifier: string, reply: FilesReply): (r: Option<string>)
    ensures r.Some? <==>
      reply.Files? && reply.files.Some? &&
      exists k :: 0 <= k < |reply.files.value| && IsMp3File(reply.files.value[k])
    ensures r.Some? ==>
      exists k :: 0 <= k < |reply.files.value| && IsMp3File(reply.files.value[k]) &&
        (forall j :: 0 <= j < k ==> !IsMp3File(reply.files.value[j])) &&
        r.value == BaseUrl + "/download/" + identifier + "/" + EncodedName(reply.files.value[k])
  {
    match reply
      case Failed => None
      case Files(files) =>
        if files.None? then None
        else match Seqs.FindFirst(files.value, IsMp3File)
          case None => None
          case Some(k) => Some(BaseUrl + "/download/" + identifier + "/" + EncodedName(files.value[k]))
  }

  /** A file matched by its name alone wins over a later "VBR MP3" file. */
  lemma GetSongUrlNoPriority(identifier: string)
    ensures GetSongUrl(identifier,
      Files(Some([ClientFile(Some("a.mp3"), Some("Ogg Vorbis")), ClientFile(Some("b.mp3"), Some("VBR MP3"))]))) ==
      Some(BaseUrl + "/download/" + identifier + "/" + PercentEncoding.EncodeUriComponent("a.mp3"))
  {
    var fs := [ClientFile(Some("a.mp3"), Some("Ogg Vorbis")), ClientFile(Some("b.mp3"), Some("VBR MP3"))];
    assert Lower("a.mp3") == "a.mp3";
    assert IsMp3File(fs[0]);
  }

  /** Distinct file names give distinct download URLs. */
  lemma GetSongUrlNamesFile(identifier: string, a: string, b: string)
    requires a != b
    ensures GetSongUrl(identifier, Files(Some([ClientFile(Some(a), Some("MP3"))]))) !=
            GetSongUrl(identifier, Files(Some([ClientFile(Some(b), Some("MP3"))])))
  {
    var fa := ClientFile(Some(a), Some("MP3"));
    var fb := ClientFile(Some(b), Some("MP3"));
    PercentEncoding.EncodeInjective(PercentEncoding.UriComponent, a, b);
    var pre := BaseUrl + "/download/" + identifier + "/";
    assert GetSongUrl(identifier, Files(Some([fa]))) == Some(pre + EncodedName(fa));
    assert GetSongUrl(identifier, Files(Some([fb]))) == Some(pre + EncodedName(fb));
    assert (pre + EncodedName(fa))[|pre|..] == EncodedName(fa);
    assert (pre + EncodedName(fb))[|pre|..] == EncodedName(fb);
  }

  // ---------------------------------------------------------------- songs from documents

  /** One search document; absent fields are `None`. */
  datatype Item = Item(identifier: string, title: Option<string>, creator: Option<string>,
                       date: Option<string>, collection: Option<seq<string>>)

  type Replies = string -> FilesReply
  type HostYear = string -> Option<int>

  /** `value || fallback` on an optional text: absent and empty texts are falsy. */
  function OrElse(value: Option<string>, fallback: string): (r: string)
    ensures value.Some? && value.value != "" ==> r == value.value
    ensures value.None? || value.value == "" ==> r == fallback
  {
    if value.Some? && value.value != "" then value.value else fallback
  }

  /** The song built for a document whose URL resolved. */
  function ItemSong(item: Item, url: string, year: HostYear): Song {
    Song(
      id := item.identifier,
      title := OrElse(item.title, "Unknown Title"),
      artist := OrElse(item.creator, "Unknown Artist"),
      duration := None,
      url := url,
      source := Api,
      thumbnail := Some(BaseUrl + "/services/img/" + item.identifier),
      album := if item.collection.Some? && |item.collection.value| > 0 then Some(item.collection.value[0]) else None,
      year := if item.date.Some? && item.date.value != "" then year(item.date.value) else None)
  }

  /** The URL a document resolves to. */
  function ItemUrl(item: Item, replies: Replies): Option<string> {
    GetSongUrl(item.identifier, replies(item.identifier))
  }

  /** One song per document whose URL resolved, in document order. */
  function Resolve(items: seq<Item>, replies: Replies, year: HostYear): (r: seq<Song>)
    ensures |r| <= |items|
    decreases |items|
  {
    if items == [] then []
    else
      Resolve(items[..|items| - 1], replies, year) + Resolved(items[|items| - 1], replies, year)
  }

  /** The song of one document: none when its URL does not resolve. */
  function Resolved(item: Item, replies: Replies, year: HostYear): seq<Song> {
    match ItemUrl(item, replies) case Some(url) => [ItemSong(item, url, year)] case None => []
  }

  /** Resolving two runs of documents one after the other is resolving them together. */
  lemma {:induction false} ResolveAppend(a: seq<Item>, b: seq<Item>, replies: Replies, year: HostYear)
    ensures Resolve(a + b, replies, year) == Resolve(a, replies, year) + Resolve(b, replies, year)
    decreases |b|
  {
    if b == [] {
      assert a + b == a;
    } else {
      var b' := b[..|b| - 1];
      assert (a + b)[..|a + b| - 1] == a + b';
      assert (a + b)[|a + b| - 1] == b[|b| - 1];
      ResolveAppend(a, b', replies, year);
    }
  }

  /** Every song comes from a document whose URL resolved, built from it with that URL. */
  lemma {:induction false} ResolveSound(items: seq<Item>, replies: Replies, year: HostYear, s: Song)
    requires s in Resolve(items, replies, year)
    ensures exists k ::
      0 <= k < |items| && ItemUrl(items[k], replies).Some? &&
      s == ItemSong(items[k], ItemUrl(items[k], replies).value, year)
    decreases |items|
  {
    var n := |items|;
    var init := items[..n - 1];
    var last := items[n - 1];
    if s in Resolve(init, replies, year) {
      ResolveSound(init, replies, year, s);
      var k :| 0 <= k < |init| && ItemUrl(init[k], replies).Some? &&
        s == ItemSong(init[k], ItemUrl(init[k], replies).value, year);
      assert init[k] == items[k];
    } else {
      assert ItemUrl(last, replies).Some? && s == ItemSong(last, ItemUrl(last, replies).value, year);
    }
  }

  /** Every document that resolves gives its song. */
  lemma {:induction false} ResolveComplete(items: seq<Item>, replies: Replies, year: HostYear, k: nat)
    requires k < |items| && ItemUrl(items[k], replies).Some?
    ensures ItemSong(items[k], ItemUrl(items[k], replies).value, year) in Resolve(items, replies, year)
    decreases |items|
  {
    var n := |items|;
    var init := items[..n - 1];
    if k < n - 1 {
      assert init[k] == items[k];
      ResolveComplete(init, replies, year, k);
    }
  }

  /** The result `searchSongs` receives from the advanced-search request. */
  datatype SearchReply = SearchFailed | SearchBody(docs: seq<Item>, numFound: int)

  /** `searchSongs(query, page, rows)`: each document in turn, its song pushed when its URL
      resolves; the total is the archive's `numFound`, however many resolved; a failed
      request gives no songs and a total of 0. */
  method SearchSongs(reply: SearchReply, replies: Replies, year: HostYear)
    returns (songs: seq<Song>, totalFound: int)
    ensures reply.SearchFailed? ==> songs == [] && totalFound == 0
    ensures reply.SearchBody? ==>
      songs == Resolve(reply.docs, replies, year) && totalFound == reply.numFound
  {
    if reply.SearchFailed? {
      return [], 0;
    }
    var docs := reply.docs;
    songs := [];
    var i := 0;
    while i < |docs|
      invariant 0 <= i <= |docs|
      invariant songs == Resolve(docs[..i], replies, year)
    {
      var item := docs[i];
      assert docs[..i + 1][..i] == docs[..i];
      var url := GetSongUrl(item.identifier, replies(item.identifier));
      if url.Some? {
        songs := songs + [ItemSong(item, url.value, year)];
      }
      i := i + 1;
    }
    assert docs[..i] == docs;
    totalFound := reply.numFound;
  }

  /** At most 20 documents are looked at. */
  const PopularDocs := 20
  /** They are resolved five at a time. */
  const BatchSize := 5

  /** `getPopularSongs(limit)`: the first min(docs, 20) documents, in batches of five, each
      batch's resolved songs appended in document order; a failed request gives none. */
  method GetPopularSongs(reply: SearchReply, replies: Replies, year: HostYear) returns (songs: seq<Song>)
    ensures reply.SearchFailed? ==> songs == []
    ensures reply.SearchBody? ==>
      songs == Resolve(reply.docs[..Min(|reply.docs|, PopularDocs)], replies, year)
  {
    if reply.SearchFailed? {
      return [];
    }
    var docs := reply.docs;
    var bound := Min(|docs|, PopularDocs);
    songs := [];
    var i := 0;
    ghost var batches := 0;
    while i < bound
      invariant i == batches * 5 && batches <= 4
      invariant songs == Resolve(docs[..Min(i, |docs|)], replies, year)
    {
      var batch := Slice(docs, i, i + BatchSize);
      assert Min(i, |docs|) == i;
      BatchStep(docs, i, replies, year);
      songs := songs + Resolve(batch, replies, year);
      i := i + BatchSize;
      batches := batches + 1;
    }
    assert Min(i, |docs|) == bound;
  }

  /** The batch at `i` extends the documents resolved so far by the next five, or by the
      rest of the list when fewer remain. */
  lemma BatchStep(docs: seq<Item>, i: nat, replies: Replies, year: HostYear)
    requires i < |docs|
    ensures Resolve(docs[..Min(i + BatchSize, |docs|)], replies, year) ==
      Resolve(docs[..i], replies, year) + Resolve(Slice(docs, i, i + BatchSize), replies, year)
  {
    var next := Min(i + BatchSize, |docs|);
    assert Slice(docs, i, i + BatchSize) == docs[i..next];
    assert docs[..next] == docs[..i] + docs[i..next];
    ResolveAppend(docs[..i], docs[i..next], replies, year);
  }

  /** The popular list holds at most 20 songs, whatever `limit` and however many documents
      come back, each from one of the first 20 documents; and it keeps their order: the
      songs of the first `j` documents come first. */
  lemma PopularBounded(docs: seq<Item>, replies: Replies, year: HostYear, j: nat, s: Song)
    requires j <= Min(|docs|, PopularDocs)
    ensures var songs := Resolve(docs[..Min(|docs|, PopularDocs)], replies, year);
      |songs| <= PopularDocs &&
      Resolve(docs[..j], replies, year) <= songs &&
      (s in songs ==> exists k :: 0 <= k < Min(|docs|, PopularDocs) && s.id == docs[k].identifier)
  {
    var first := docs[..Min(|docs|, PopularDocs)];
    assert first == docs[..j] + first[j..];
    ResolveAppend(docs[..j], first[j..], replies, year);
    if s in Resolve(first, replies, year) {
      ResolveSound(first, replies, year, s);
    }
  }

  /** A search result holds at most one song per document, each from a document of the
      reply with its identifier as id and a download URL of that document. */
  lemma SearchSongsBounded(docs: seq<Item>, replies: Replies, year: HostYear, s: Song)
    ensures |Resolve(docs, replies, year)| <= |docs|
    ensures s in Resolve(docs, replies, year) ==>
      s.source == Api && s.thumbnail == Some(BaseUrl + "/services/img/" + s.id) &&
      exists k :: 0 <= k < |docs| && s.id == docs[k].identifier &&
        GetSongUrl(s.id, replies(s.id)) == Some(s.url)
  {
    if s in Resolve(docs, replies, year) {
      ResolveSound(docs, replies, year, s);
    }
  }
}
