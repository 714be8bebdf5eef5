/** The backend's normalisation of Internet Archive search documents into songs
    (app.py, `search_internet_archive` and `get_popular_songs`): the search reply and each
    item's metadata reply are inputs; the URL of each item comes from `ArchiveFiles`. */
module ArchiveSearch {
  import opened Text
  import opened Songs
  import ArchiveFiles
  import Seqs

  /** The `creator` field of a search document. */
  datatype Creator = NoCreator | CreatorText(name: string) | CreatorList(names: seq<string>)

  /** One search document: the fields the normalisation reads (an absent field is None). */
  datatype Doc = Doc(identifier: Option<string>, title: Option<string>, creator: Creator, date: Option<string>)

  /** The search reply's body: not a JSON object, or its `response` object (absent keys read
      as no documents and a total of 0). */
  datatype SearchBody = NotJson | Body(docs: seq<Doc>, numFound: int)

  datatype SearchReply = Unreachable | Reply(status: int, body: SearchBody)

  /** The per-item metadata resolve, by identifier. */
  type Replies = string -> ArchiveFiles.MetadataReply

  /** The URL lookup for an identifier (`get_song_url_from_archive`, with its exception
      caught as None). */
  type Resolve = string -> Option<string>

  /** The lookup the backend performs: `ArchiveFiles.ArchiveUrl` on the item's metadata
      reply. */
  function Resolver(replies: Replies): Resolve {
    id => ArchiveFiles.ArchiveUrl(id, replies(id))
  }

  predicate Truthy(o: Option<string>) {
    o.Some? && o.value != ""
  }

  function ThumbnailUrl(identifier: string): string {
    ArchiveFiles.ArchiveBase + "/services/img/" + identifier
  }

  /** The artist: the first entry of a creator list, the creator text, or "Unknown Artist";
      None where `[0]` of an empty list raises `IndexError`. */
  function Artist(c: Creator): Option<string> {
    match c
      case NoCreator => Some("Unknown Artist")
      case CreatorText(name) => Some(name)
      case CreatorList(names) => if names == [] then None else Some(names[0])
  }

  /** `int(date[:4])` when the date is a non-empty text that parses, else no year. */
  function Year(date: Option<string>): Option<int> {
    if Truthy(date) then PyInt(Slice(date.value, 0, 4)) else None
  }

  /** The song built for a resolved document; None when building it raises. */
  function ApiSong(doc: Doc, identifier: string, url: string): Option<Song> {
    match Artist(doc.creator)
      case None => None
      case Some(artist) =>
        Some(Song(
          id := identifier,
          title := if doc.title.Some? then doc.title.value else "Unknown Title",
          artist := artist,
          duration := None,
          url := url,
          source := Api,
          thumbnail := Some(ThumbnailUrl(identifier)),
          album := None,
          year := Year(doc.date)))
  }

  /** The rules `ApiSong` follows: the id, URL, source and thumbnail come from the item;
      the title is the document's when the key is present and "Unknown Title" otherwise;
      the artist is the first entry of a creator list, the creator text, or "Unknown
      Artist"; the year is the date's first four characters read as an integer, and there
      is none without a date. Building raises exactly for an empty creator list. */
  lemma ApiSongRules(doc: Doc, identifier: string, url: string)
    ensures ApiSong(doc, identifier, url).None? <==> doc.creator == CreatorList([])
    ensures var r := ApiSong(doc, identifier, url);
      r.Some? ==>
        && r.value.id == identifier && r.value.url == url && r.value.source == Api
        && r.value.thumbnail == Some(ThumbnailUrl(identifier))
        && r.value.duration == None && r.value.album == None
        && r.value.title == (if doc.title.Some? then doc.title.value else "Unknown Title")
        && (doc.creator.NoCreator? ==> r.value.artist == "Unknown Artist")
        && (doc.creator.CreatorText? ==> r.value.artist == doc.creator.name)
        && (doc.creator.CreatorList? ==> r.value.artist == doc.creator.names[0])
    ensures var r := ApiSong(doc, identifier, url);
      r.Some? && !Truthy(doc.date) ==> r.value.year == None
    ensures var r := ApiSong(doc, identifier, url);
      r.Some? && doc.date.Some? && |doc.date.value| >= 4 && AllDigits(doc.date.value[..4]) ==>
        r.value.year == Some(ParseDigits(doc.date.value[..4]))
  {
    if doc.date.Some? && |doc.date.value| >= 4 && AllDigits(doc.date.value[..4]) {
      var d := doc.date.value;
      assert Slice(d, 0, 4) == d[..4];
      PyIntDigits(d[..4]);
    }
  }

  /** When the loop stops: the search stops at 10 songs; the popular list stops at `limit`
      songs or after `2 * limit` identified documents; `NoCap` never stops. */
  datatype Cap = SearchCap | PopularCap(limit: int) | NoCap

  predicate Stop(cap: Cap, songs: nat, processed: nat) {
    match cap
      case SearchCap => songs >= 10
      case PopularCap(limit) => songs >= limit || processed >= limit * 2
      case NoCap => false
  }

  /** The most songs a capped loop returns. */
  function Bound(cap: Cap): int {
    match cap
      case SearchCap => 10
      case PopularCap(limit) => if limit < 1 then 1 else limit
      case NoCap => -1
  }

  /** The loop over the documents from index `i`, with the songs so far and the count of
      identified documents processed; None when building a song raised. */
  function HarvestFrom(docs: seq<Doc>, resolve: Resolve, cap: Cap, i: nat, acc: seq<Song>, processed: nat): Option<seq<Song>>
    requires i <= |docs|
    decreases |docs| - i
  {
    if i == |docs| then Some(acc)
    else if !Truthy(docs[i].identifier) then HarvestFrom(docs, resolve, cap, i + 1, acc, processed)
    else
      var id := docs[i].identifier.value;
      var p := processed + 1;
      match resolve(id)
        case None =>
          if Stop(cap, |acc|, p) then Some(acc) else HarvestFrom(docs, resolve, cap, i + 1, acc, p)
        case Some(url) =>
          match ApiSong(docs[i], id, url)
            case None => None
            case Some(song) =>
              if Stop(cap, |acc| + 1, p) then Some(acc + [song])
              else HarvestFrom(docs, resolve, cap, i + 1, acc + [song], p)
  }

  function Harvest(docs: seq<Doc>, resolve: Resolve, cap: Cap): Option<seq<Song>> {
    HarvestFrom(docs, resolve, cap, 0, [], 0)
  }

  /** `search_internet_archive(...)`: the songs and the reported total. */
  function SearchResult(reply: SearchReply, replies: Replies): (seq<Song>, int) {
    if reply.Reply? && reply.status == 200 && reply.body.Body? then
      match Harvest(reply.body.docs, Resolver(replies), SearchCap)
        case None => ([], 0)
        case Some(songs) => (songs, reply.body.numFound)
    else ([], 0)
  }

  /** `get_popular_songs(limit)`. */
  function PopularResult(limit: int, reply: SearchReply, replies: Replies): seq<Song> {
    if reply.Reply? && reply.status == 200 && reply.body.Body? then
      match Harvest(reply.body.docs, Resolver(replies), PopularCap(limit))
        case None => []
        case Some(songs) => songs
    else []
  }

  /** The loop shared by both functions, as written: skip, resolve, build, append, stop. */
  method HarvestDocs(docs: seq<Doc>, resolve: Resolve, cap: Cap) returns (result: Option<seq<Song>>)
    ensures result == Harvest(docs, resolve, cap)
  {
    var songs: seq<Song> := [];
    var processed := 0;
    var i := 0;
    while i < |docs|
      invariant 0 <= i <= |docs|
      invariant Harvest(docs, resolve, cap) == HarvestFrom(docs, resolve, cap, i, songs, processed)
    {
      var doc := docs[i];
      if !Truthy(doc.identifier) {
        i := i + 1;
        continue;
      }
      var id := doc.identifier.value;
      processed := processed + 1;
      var url := resolve(id);
      if url.Some? {
        var song := ApiSong(doc, id, url.value);
        if song.None? {
          return None;
        }
        songs := songs + [song.value];
      }
      if Stop(cap, |songs|, processed) {
        return Some(songs);
      }
      i := i + 1;
    }
    return Some(songs);
  }

  /** `search_internet_archive`. */
  method SearchInternetArchive(reply: SearchReply, replies: Replies) returns (songs: seq<Song>, total: int)
    ensures (songs, total) == SearchResult(reply, replies)
  {
    if !(reply.Reply? && reply.status == 200 && reply.body.Body?) {
      return [], 0;
    }
    var found := HarvestDocs(reply.body.docs, Resolver(replies), SearchCap);
    if found.None? {
      return [], 0;
    }
    return found.value, reply.body.numFound;
  }

  /** `get_popular_songs`. */
  method GetPopularSongs(limit: int, reply: SearchReply, replies: Replies) returns (songs: seq<Song>)
    ensures songs == PopularResult(limit, reply, replies)
  {
    if !(reply.Reply? && reply.status == 200 && reply.body.Body?) {
      return [];
    }
    var found := HarvestDocs(reply.body.docs, Resolver(replies), PopularCap(limit));
    if found.None? {
      return [];
    }
    return found.value;
  }

  // ---------------------------------------------------------------- properties

  /** A capped loop never returns more songs than its bound. */
  lemma {:induction false} HarvestBounded(docs: seq<Doc>, resolve: Resolve, cap: Cap, i: nat, acc: seq<Song>, processed: nat)
    requires i <= |docs| && cap != NoCap && |acc| < Bound(cap)
    ensures var r := HarvestFrom(docs, resolve, cap, i, acc, processed);
      r.Some? ==> |r.value| <= Bound(cap)
    decreases |docs| - i
  {
    if i < |docs| {
      if !Truthy(docs[i].identifier) {
        HarvestBounded(docs, resolve, cap, i + 1, acc, processed);
      } else {
        var id := docs[i].identifier.value;
        match resolve(id)
          case None =>
            HarvestBounded(docs, resolve, cap, i + 1, acc, processed + 1);
          case Some(url) =>
            match ApiSong(docs[i], id, url)
              case None =>
              case Some(song) =>
                if !Stop(cap, |acc| + 1, processed + 1) {
                  HarvestBounded(docs, resolve, cap, i + 1, acc + [song], processed + 1);
                }
      }
    }
  }

  /** The search returns at most 10 songs; the popular list at most `limit` songs (one when
      `limit` is below 1). */
  lemma ResultsBounded(limit: int, reply: SearchReply, replies: Replies)
    ensures |SearchResult(reply, replies).0| <= 10
    ensures |PopularResult(limit, reply, replies)| <= (if limit < 1 then 1 else limit)
  {
    if reply.Reply? && reply.status == 200 && reply.body.Body? {
      HarvestBounded(reply.body.docs, Resolver(replies), SearchCap, 0, [], 0);
      HarvestBounded(reply.body.docs, Resolver(replies), PopularCap(limit), 0, [], 0);
    }
  }

  /** The search reports the reply's `numFound` as its total, whatever number of songs it
      returns; any failure gives no songs and a total of 0. */
  lemma SearchTotal(reply: SearchReply, replies: Replies)
    ensures var (songs, total) := SearchResult(reply, replies);
      (reply.Reply? && reply.status == 200 && reply.body.Body? &&
       Harvest(reply.body.docs, Resolver(replies), SearchCap).Some?) ==> total == reply.body.numFound
    ensures var (songs, total) := SearchResult(reply, replies);
      !(reply.Reply? && reply.status == 200 && reply.body.Body?) ==> songs == [] && total == 0
  {
  }

  /** The song is exactly what `ApiSong` builds for some identified document, under that
      document's identifier, with the URL the song carries. */
  predicate BuiltFrom(song: Song, docs: seq<Doc>) {
    exists k :: 0 <= k < |docs| && Truthy(docs[k].identifier) &&
      ApiSong(docs[k], docs[k].identifier.value, song.url) == Some(song)
  }

  /** A song that was built from one of the documents: the song is `ApiSong` of an
      identified document (its title, artist and year are that document's), its id names
      the document, its URL is that item's resolved URL, and its thumbnail is the item
      image. */
  predicate FromDocs(song: Song, docs: seq<Doc>, resolve: Resolve) {
    && song.source == Api
    && song.thumbnail == Some(ThumbnailUrl(song.id))
    && song.id != ""
    && resolve(song.id) == Some(song.url)
    && BuiltFrom(song, docs)
  }

  predicate AllFromDocs(songs: seq<Song>, docs: seq<Doc>, resolve: Resolve) {
    forall k :: 0 <= k < |songs| ==> FromDocs(songs[k], docs, resolve)
  }

  /** The song built for an identified, resolved document comes from the documents. */
  lemma ApiSongFromDocs(docs: seq<Doc>, resolve: Resolve, i: nat, acc: seq<Song>)
    requires i < |docs| && Truthy(docs[i].identifier) && AllFromDocs(acc, docs, resolve)
    requires resolve(docs[i].identifier.value).Some?
    requires ApiSong(docs[i], docs[i].identifier.value,
                     resolve(docs[i].identifier.value).value).Some?
    ensures var id := docs[i].identifier.value;
      AllFromDocs(acc + [ApiSong(docs[i], id, resolve(id).value).value], docs, resolve)
  {
    var id := docs[i].identifier.value;
    var song := ApiSong(docs[i], id, resolve(id).value).value;
    assert BuiltFrom(song, docs) by {
      assert ApiSong(docs[i], docs[i].identifier.value, song.url) == Some(song);
    }
    assert FromDocs(song, docs, resolve);
    var acc' := acc + [song];
    forall k | 0 <= k < |acc'|
      ensures FromDocs(acc'[k], docs, resolve)
    {
      if k < |acc| {
        assert acc'[k] == acc[k];
      }
    }
  }

  lemma {:induction false} HarvestFromDocs(docs: seq<Doc>, resolve: Resolve, cap: Cap, i: nat, acc: seq<Song>, processed: nat)
    requires i <= |docs| && AllFromDocs(acc, docs, resolve)
    ensures var r := HarvestFrom(docs, resolve, cap, i, acc, processed);
      r.Some? ==> AllFromDocs(r.value, docs, resolve)
    decreases |docs| - i
  {
    if i < |docs| {
      if !Truthy(docs[i].identifier) {
        HarvestFromDocs(docs, resolve, cap, i + 1, acc, processed);
      } else {
        var id := docs[i].identifier.value;
        match resolve(id)
          case None =>
            HarvestFromDocs(docs, resolve, cap, i + 1, acc, processed + 1);
          case Some(url) =>
            match ApiSong(docs[i], id, url)
              case None =>
              case Some(song) =>
                ApiSongFromDocs(docs, resolve, i, acc);
                HarvestFromDocs(docs, resolve, cap, i + 1, acc + [song], processed + 1);
      }
    }
  }

  /** Every song returned by either function comes from an identified document whose item
      resolved to a URL. */
  lemma ResultsFromDocs(limit: int, reply: SearchReply, replies: Replies)
    requires reply.Reply? && reply.body.Body?
    ensures var songs := SearchResult(reply, replies).0;
      forall k :: 0 <= k < |songs| ==> FromDocs(songs[k], reply.body.docs, Resolver(replies))
    ensures var songs := PopularResult(limit, reply, replies);
      forall k :: 0 <= k < |songs| ==> FromDocs(songs[k], reply.body.docs, Resolver(replies))
  {
    HarvestFromDocs(reply.body.docs, Resolver(replies), SearchCap, 0, [], 0);
    HarvestFromDocs(reply.body.docs, Resolver(replies), PopularCap(limit), 0, [], 0);
  }

  /** A capped result is exactly what the uncapped loop yields on some prefix of the
      documents: the caps cut the list but never reorder or skip a resolved document. */
  lemma {:induction false} HarvestIsPrefix(docs: seq<Doc>, resolve: Resolve, cap: Cap, i: nat, acc: seq<Song>, processed: nat, q: nat)
    returns (j: nat)
    requires i <= |docs|
    requires HarvestFrom(docs, resolve, cap, i, acc, processed).Some?
    ensures i <= j <= |docs|
    ensures HarvestFrom(docs[..j], resolve, NoCap, i, acc, q) == HarvestFrom(docs, resolve, cap, i, acc, processed)
    ensures j < |docs| ==>
      Stop(cap, |HarvestFrom(docs, resolve, cap, i, acc, processed).value|, processed + IdentifiedFrom(docs[..j], i))
    decreases |docs| - i
  {
    if i == |docs| {
      j := i;
      assert docs[..j] == docs;
    } else {
      var d := docs[i];
      if !Truthy(d.identifier) {
        j := HarvestIsPrefix(docs, resolve, cap, i + 1, acc, processed, q);
        assert docs[..j][i] == d;
      } else {
        var id := d.identifier.value;
        match resolve(id)
          case None =>
            if Stop(cap, |acc|, processed + 1) {
              j := i + 1;
              assert docs[..j][i] == d;
            } else {
              j := HarvestIsPrefix(docs, resolve, cap, i + 1, acc, processed + 1, q + 1);
              assert docs[..j][i] == d;
            }
          case Some(url) =>
            var song := ApiSong(d, id, url).value;
            if Stop(cap, |acc| + 1, processed + 1) {
              j := i + 1;
              assert docs[..j][i] == d;
            } else {
              j := HarvestIsPrefix(docs, resolve, cap, i + 1, acc + [song], processed + 1, q + 1);
              assert docs[..j][i] == d;
            }
      }
    }
  }

  // ---------------------------------------------------------------- completeness

  /** Building the song raises for this document: it is identified, its item resolves, and
      `ApiSong` fails on it. */
  predicate Raises(doc: Doc, resolve: Resolve) {
    && Truthy(doc.identifier)
    && resolve(doc.identifier.value).Some?
    && ApiSong(doc, doc.identifier.value,
               resolve(doc.identifier.value).value).None?
  }

  /** Building raises for some document. */
  predicate AnyRaises(docs: seq<Doc>, resolve: Resolve) {
    Seqs.Exists(docs, RaisesIn(resolve))
  }

  function RaisesIn(resolve: Resolve): Doc -> bool {
    d => Raises(d, resolve)
  }

  /** What one document contributes to the list: its song when it is identified, its item
      resolves and the song can be built; nothing otherwise. */
  function Contribution(doc: Doc, resolve: Resolve): seq<Song> {
    if !Truthy(doc.identifier) then []
    else
      var id := doc.identifier.value;
      match resolve(id)
        case None => []
        case Some(url) =>
          match ApiSong(doc, id, url)
            case None => []
            case Some(song) => [song]
  }

  /** The reference list: every document's contribution, in document order. */
  function Built(docs: seq<Doc>, resolve: Resolve): seq<Song> {
    Seqs.FlatMap(docs, ContributionIn(resolve))
  }

  function ContributionIn(resolve: Resolve): Doc -> seq<Song> {
    d => Contribution(d, resolve)
  }

  /** One document of the uncapped loop: it raises, or it appends the document's
      contribution and goes on. */
  lemma NoCapStep(docs: seq<Doc>, resolve: Resolve, i: nat, acc: seq<Song>, processed: nat)
    returns (next: nat)
    requires i < |docs|
    ensures HarvestFrom(docs, resolve, NoCap, i, acc, processed) ==
      if RaisesIn(resolve)(docs[i]) then None
      else HarvestFrom(docs, resolve, NoCap, i + 1, acc + ContributionIn(resolve)(docs[i]), next)
  {
    var d := docs[i];
    next := processed;
    if !Truthy(d.identifier) {
      assert acc + [] == acc;
    } else {
      next := processed + 1;
      var id := d.identifier.value;
      if resolve(id).None? {
        assert acc + [] == acc;
      }
    }
  }

  lemma {:induction false} HarvestNoCapFrom(docs: seq<Doc>, resolve: Resolve, i: nat, acc: seq<Song>, processed: nat)
    requires i <= |docs|
    ensures HarvestFrom(docs, resolve, NoCap, i, acc, processed) ==
      if AnyRaises(docs[i..], resolve) then None else Some(acc + Built(docs[i..], resolve))
    decreases |docs| - i
  {
    if i == |docs| {
      assert docs[i..] == [];
      assert Built(docs[i..], resolve) == [] && acc + [] == acc;
    } else {
      var d := docs[i];
      var rest := docs[i + 1..];
      var c := ContributionIn(resolve)(d);
      assert docs[i..][0] == d && docs[i..][1..] == rest;
      Seqs.ExistsFirst(docs[i..], RaisesIn(resolve));
      assert AnyRaises(docs[i..], resolve) <==> RaisesIn(resolve)(d) || AnyRaises(rest, resolve);
      assert Built(docs[i..], resolve) == c + Built(rest, resolve);
      var next := NoCapStep(docs, resolve, i, acc, processed);
      if !RaisesIn(resolve)(d) {
        HarvestNoCapFrom(docs, resolve, i + 1, acc + c, next);
        assert acc + c + Built(rest, resolve) == acc + (c + Built(rest, resolve));
      }
    }
  }

  /** Without a cap the loop yields every document's song, in document order, unless
      building some song raises. */
  lemma HarvestNoCap(docs: seq<Doc>, resolve: Resolve)
    ensures Harvest(docs, resolve, NoCap) ==
      if AnyRaises(docs, resolve) then None else Some(Built(docs, resolve))
  {
    HarvestNoCapFrom(docs, resolve, 0, [], 0);
    assert docs[0..] == docs;
    assert [] + Built(docs, resolve) == Built(docs, resolve);
  }

  /** Each document's song sits in the reference list after the songs of the documents
      before it and before those of the documents after it. */
  lemma BuiltSplit(docs: seq<Doc>, resolve: Resolve, k: nat)
    requires k < |docs|
    ensures Built(docs, resolve) ==
      Built(docs[..k], resolve) + Contribution(docs[k], resolve) + Built(docs[k + 1..], resolve)
  {
    Seqs.FlatMapSplit(docs, ContributionIn(resolve), k);
  }

  /** Completeness of both functions: the songs are exactly those of the documents before
      the point where the loop stopped, in document order, one per identified document whose
      item resolved. The search stops early only at 10 songs; the popular list only at
      `limit` songs or `2 * limit` identified documents. A failed build anywhere before that
      point gives no songs at all. */
  lemma ResultsComplete(limit: int, reply: SearchReply, replies: Replies)
    requires reply.Reply? && reply.status == 200 && reply.body.Body?
    ensures var docs := reply.body.docs;
      var songs := SearchResult(reply, replies).0;
      Harvest(docs, Resolver(replies), SearchCap).Some? ==>
        exists j :: 0 <= j <= |docs| && !AnyRaises(docs[..j], Resolver(replies)) &&
          songs == Built(docs[..j], Resolver(replies)) && (j < |docs| ==> |songs| == 10)
    ensures var docs := reply.body.docs;
      Harvest(docs, Resolver(replies), SearchCap).None? ==>
        AnyRaises(docs, Resolver(replies)) && SearchResult(reply, replies) == ([], 0)
    ensures var docs := reply.body.docs;
      var songs := PopularResult(limit, reply, replies);
      Harvest(docs, Resolver(replies), PopularCap(limit)).Some? ==>
        exists j :: 0 <= j <= |docs| && !AnyRaises(docs[..j], Resolver(replies)) &&
          songs == Built(docs[..j], Resolver(replies)) &&
          (j < |docs| ==> |songs| >= limit || IdentifiedFrom(docs[..j], 0) >= limit * 2)
    ensures var docs := reply.body.docs;
      Harvest(docs, Resolver(replies), PopularCap(limit)).None? ==>
        AnyRaises(docs, Resolver(replies)) && PopularResult(limit, reply, replies) == []
  {
    var docs := reply.body.docs;
    HarvestBounded(docs, Resolver(replies), SearchCap, 0, [], 0);
    if Harvest(docs, Resolver(replies), SearchCap).Some? {
      var j := HarvestIsPrefix(docs, Resolver(replies), SearchCap, 0, [], 0, 0);
      HarvestNoCap(docs[..j], Resolver(replies));
      assert SearchResult(reply, replies).0 == Built(docs[..j], Resolver(replies));
    } else {
      HarvestRaises(docs, Resolver(replies), SearchCap, 0, [], 0);
      assert docs[0..] == docs;
    }
    if Harvest(docs, Resolver(replies), PopularCap(limit)).Some? {
      var j := HarvestIsPrefix(docs, Resolver(replies), PopularCap(limit), 0, [], 0, 0);
      HarvestNoCap(docs[..j], Resolver(replies));
      assert PopularResult(limit, reply, replies) == Built(docs[..j], Resolver(replies));
    } else {
      HarvestRaises(docs, Resolver(replies), PopularCap(limit), 0, [], 0);
      assert docs[0..] == docs;
    }
  }

  /** The loop raises only when building the song of some later document raises. */
  lemma {:induction false} HarvestRaises(docs: seq<Doc>, resolve: Resolve, cap: Cap, i: nat, acc: seq<Song>, processed: nat)
    requires i <= |docs| && HarvestFrom(docs, resolve, cap, i, acc, processed).None?
    ensures AnyRaises(docs[i..], resolve)
    decreases |docs| - i
  {
    var d := docs[i];
    var rest := docs[i + 1..];
    assert docs[i..] == [d] + rest;
    Seqs.ExistsCons(d, rest, RaisesIn(resolve));
    if !Truthy(d.identifier) {
      HarvestRaises(docs, resolve, cap, i + 1, acc, processed);
    } else {
      var id := d.identifier.value;
      match resolve(id)
        case None =>
          HarvestRaises(docs, resolve, cap, i + 1, acc, processed + 1);
        case Some(url) =>
          match ApiSong(d, id, url)
            case None =>
            case Some(song) =>
              HarvestRaises(docs, resolve, cap, i + 1, acc + [song], processed + 1);
    }
  }

  /** The number of identified documents from index `i` on. */
  function IdentifiedFrom(docs: seq<Doc>, i: nat): nat
    requires i <= |docs|
    decreases |docs| - i
  {
    if i == |docs| then 0
    else (if Truthy(docs[i].identifier) then 1 else 0) + IdentifiedFrom(docs, i + 1)
  }

  lemma {:induction false} PopularIgnoresTailFrom(docs: seq<Doc>, extra: seq<Doc>, resolve: Resolve, limit: int, i: nat, acc: seq<Song>, processed: nat)
    requires i < |docs|
    requires processed < limit * 2 <= processed + IdentifiedFrom(docs, i)
    ensures HarvestFrom(docs + extra, resolve, PopularCap(limit), i, acc, processed) ==
      HarvestFrom(docs, resolve, PopularCap(limit), i, acc, processed)
    decreases |docs| - i
  {
    var all := docs + extra;
    assert all[i] == docs[i];
    if !Truthy(docs[i].identifier) {
      PopularIgnoresTailFrom(docs, extra, resolve, limit, i + 1, acc, processed);
    } else {
      var id := docs[i].identifier.value;
      match resolve(id)
        case None =>
          if !Stop(PopularCap(limit), |acc|, processed + 1) {
            PopularIgnoresTailFrom(docs, extra, resolve, limit, i + 1, acc, processed + 1);
          }
        case Some(url) =>
          match ApiSong(docs[i], id, url)
            case None =>
            case Some(song) =>
              if !Stop(PopularCap(limit), |acc| + 1, processed + 1) {
                PopularIgnoresTailFrom(docs, extra, resolve, limit, i + 1, acc + [song], processed + 1);
              }
    }
  }

  /** The popular list reads at most `2 * limit` identified documents: documents after the
      first `2 * limit` identified ones never affect it. */
  lemma PopularIgnoresTail(docs: seq<Doc>, extra: seq<Doc>, resolve: Resolve, limit: int)
    requires limit >= 1 && IdentifiedFrom(docs, 0) >= limit * 2
    ensures Harvest(docs + extra, resolve, PopularCap(limit)) == Harvest(docs, resolve, PopularCap(limit))
  {
    PopularIgnoresTailFrom(docs, extra, resolve, limit, 0, [], 0);
  }
}
