/** The backend's scan of the local songs folder (app.py, `allowed_file` and
    `get_static_songs`). The directory listing, whether the folder exists, and what reading
    each file's audio header and ID3 tags yields are inputs. */
module Scanner {
  import opened Text
  import opened Songs
  import Seqs
  import PercentEncoding

  const AllowedExtensions: set<string> := {"mp3", "wav", "ogg"}

  /** The index of the last occurrence of `c`, as `str.rfind` finds it. */
  function LastIndexOf(s: string, c: char): (r: Option<nat>)
    ensures r.Some? ==> r.value < |s| && s[r.value] == c
    ensures r.Some? ==> forall j :: r.value < j < |s| ==> s[j] != c
    ensures r.None? ==> forall j :: 0 <= j < |s| ==> s[j] != c
  {
    if s == [] then None
    else if s[|s| - 1] == c then Some(|s| - 1)
    else LastIndexOf(s[..|s| - 1], c)
  }

  /** `allowed_file`: the name has a "." and the lower-cased text after the last "." is an
      allowed extension. */
  predicate AllowedFile(name: string) {
    match LastIndexOf(name, '.')
      case None => false
      case Some(d) => Lower(name[d + 1..]) in AllowedExtensions
  }

  lemma LowerSlice(s: string, a: nat, b: nat)
    requires a <= b <= |s|
    ensures Lower(s[a..b]) == Lower(s)[a..b]
  {
  }

  lemma ExtensionShape(ext: string)
    requires ext in AllowedExtensions
    ensures |ext| == 3 && forall i :: 0 <= i < 3 ==> ext[i] != '.'
  {
    assert ext == "mp3" || ext == "wav" || ext == "ogg";
  }

  /** An independent reading of `allowed_file`: the lower-cased name ends with "." and an
      allowed extension. */
  lemma AllowedFileIffSuffix(name: string)
    ensures AllowedFile(name) <==>
      exists ext :: ext in AllowedExtensions && EndsWith(Lower(name), "." + ext)
  {
    if AllowedFile(name) {
      AllowedFileHasSuffix(name);
    }
    if exists ext :: ext in AllowedExtensions && EndsWith(Lower(name), "." + ext) {
      var ext :| ext in AllowedExtensions && EndsWith(Lower(name), "." + ext);
      SuffixIsAllowed(name, ext);
    }
  }

  lemma AllowedFileHasSuffix(name: string)
    requires AllowedFile(name)
    ensures exists ext :: ext in AllowedExtensions && EndsWith(Lower(name), "." + ext)
  {
    var low := Lower(name);
    var d := LastIndexOf(name, '.').value;
    var ext := Lower(name[d + 1..]);
    LowerSlice(name, d, |name|);
    assert low[d..] == "." + ext;
    assert EndsWith(low, "." + ext);
  }

  lemma SuffixIsAllowed(name: string, ext: string)
    requires ext in AllowedExtensions && EndsWith(Lower(name), "." + ext)
    ensures AllowedFile(name)
  {
    var low := Lower(name);
    var n := |name|;
    ExtensionShape(ext);
    assert low[n - 4..] == "." + ext;
    assert low[n - 4] == '.';
    forall j | n - 4 < j < n
      ensures name[j] != '.'
    {
      assert low[j] == ext[j - (n - 3)];
    }
    assert LastIndexOf(name, '.') == Some(n - 4);
    LowerSlice(name, n - 3, n);
    assert name[n - 3..n] == name[n - 3..];
    assert low[n - 3..] == ext;
    assert name[n - 4 + 1..] == name[n - 3..];
    assert Lower(name[n - 4 + 1..]) == ext;
  }

  /** The root `os.path.splitext` returns for a name without "/": the text before the last
      ".", unless every character before that "." is itself a "." (a hidden file). */
  function SplitExtRoot(name: string): (r: string)
    ensures |r| <= |name|
  {
    match LastIndexOf(name, '.')
      case None => name
      case Some(d) => if exists j :: 0 <= j < d && name[j] != '.' then name[..d] else name
  }

  /** The fallback title: the root with "_" and "-" turned into spaces, then title-cased. */
  function PrettyTitle(filename: string): string {
    TitleCase(ReplaceChar(ReplaceChar(SplitExtRoot(filename), '_', ' '), '-', ' '))
  }

  /** What the ID3 read yields: nothing (no header, or any other tag error) or the first
      text of the TIT2 and TPE1 frames where present. */
  datatype TagResult = NoTags | Tags(title: Option<string>, artist: Option<string>)

  /** What reading a file yields: nothing when the audio header cannot be read, otherwise
      the length in seconds and the tag result. */
  datatype FileRead = Unreadable | Readable(length: real, tags: TagResult)

  /** Python truthiness of an optional string: present and non-empty. */
  predicate Truthy(o: Option<string>) {
    o.Some? && o.value != ""
  }

  function TagTitle(read: FileRead): Option<string> {
    if read.Readable? && read.tags.Tags? then read.tags.title else None
  }

  function TagArtist(read: FileRead): Option<string> {
    if read.Readable? && read.tags.Tags? then read.tags.artist else None
  }

  /** The record for the listing entry at 1-based position `position`. */
  function StaticRecord(position: nat, filename: string, read: FileRead): Song {
    Song(
      id := "static-" + NatToString(position),
      title := if Truthy(TagTitle(read)) then TagTitle(read).value else PrettyTitle(filename),
      artist := if Truthy(TagArtist(read)) then TagArtist(read).value else "Unknown Artist",
      duration := if read.Readable? then Some(read.length) else None,
      url := "/songs/" + PercentEncoding.Quote(filename),
      source := Static,
      thumbnail := None,
      album := None,
      year := None)
  }

  /** The records for the allowed entries of a listing, each numbered by its position in
      the whole listing. */
  function Records(listing: seq<string>, read: string -> FileRead): (r: seq<Song>)
    ensures |r| == |Seqs.Positions(listing, AllowedFile)|
  {
    var ps := Seqs.Positions(listing, AllowedFile);
    seq(|ps|, k requires 0 <= k < |ps| => RecordAt(listing, read, ps[k]))
  }

  /** The record of the entry at position `p`, numbered from 1. */
  function RecordAt(listing: seq<string>, read: string -> FileRead, p: nat): Song
    requires p < |listing|
  {
    StaticRecord(p + 1, listing[p], read(listing[p]))
  }

  /** A record depends only on its own entry. */
  lemma RecordAtPrefix(listing: seq<string>, init: seq<string>, read: string -> FileRead, p: nat)
    requires init <= listing && p < |init|
    ensures RecordAt(listing, read, p) == RecordAt(init, read, p)
  {
    assert listing[p] == init[p];
  }

  /** `get_static_songs()`: no songs when the folder is missing (it is then created). */
  function StaticSongs(folderExists: bool, listing: seq<string>, read: string -> FileRead): seq<Song> {
    if folderExists then Records(listing, read) else []
  }

  /** `get_static_songs`, following its `enumerate(..., start=1)` loop. */
  method GetStaticSongs(folderExists: bool, listing: seq<string>, read: string -> FileRead)
    returns (songs: seq<Song>)
    ensures songs == StaticSongs(folderExists, listing, read)
  {
    songs := [];
    if !folderExists {
      return;
    }
    var i := 0;
    while i < |listing|
      invariant 0 <= i <= |listing|
      invariant songs == Records(listing[..i], read)
    {
      RecordsStep(listing[..i + 1], read);
      assert listing[..i + 1][..i] == listing[..i];
      if AllowedFile(listing[i]) {
        songs := songs + [StaticRecord(i + 1, listing[i], read(listing[i]))];
      }
      i := i + 1;
    }
    assert listing[..i] == listing;
  }

  /** Extending the listing by one entry adds at most that entry's record. */
  lemma RecordsStep(listing: seq<string>, read: string -> FileRead)
    requires |listing| > 0
    ensures var n := |listing| - 1;
      Records(listing, read) == Records(listing[..n], read) +
        (if AllowedFile(listing[n]) then [RecordAt(listing, read, n)] else [])
  {
    var n := |listing| - 1;
    var init := listing[..n];
    var ps := Seqs.Positions(listing, AllowedFile);
    var qs := Seqs.Positions(init, AllowedFile);
    assert ps == qs + (if AllowedFile(listing[n]) then [n] else []);
    var lhs := Records(listing, read);
    var rhs := Records(init, read) +
      (if AllowedFile(listing[n]) then [RecordAt(listing, read, n)] else []);
    assert |lhs| == |rhs|;
    forall k | 0 <= k < |lhs|
      ensures lhs[k] == rhs[k]
    {
      if k < |qs| {
        assert ps[k] == qs[k];
        RecordAtPrefix(listing, init, read, qs[k]);
      } else {
        assert ps[k] == n;
      }
    }
  }

  /** The scanner emits one record per allowed entry, in listing order: the k-th record
      belongs to the k-th allowed name, is numbered by that name's position in the whole
      listing, and its URL is "/songs/" followed by the quoted name. */
  lemma StaticSongsSelected(listing: seq<string>, read: string -> FileRead)
    ensures var songs := StaticSongs(true, listing, read);
      var allowed := Seqs.Filter(listing, AllowedFile);
      var ps := Seqs.Positions(listing, AllowedFile);
      |songs| == |allowed| &&
      forall k :: 0 <= k < |songs| ==>
        ps[k] < |listing| && listing[ps[k]] == allowed[k] &&
        songs[k].id == "static-" + NatToString(ps[k] + 1) &&
        songs[k].url == "/songs/" + PercentEncoding.Quote(allowed[k])
  {
    Seqs.FilterAt(listing, AllowedFile);
  }

  /** Every allowed entry of the listing has a record, and every record's URL percent-decodes
      to the name of an allowed entry. */
  lemma StaticSongsCoverListing(listing: seq<string>, read: string -> FileRead, name: string)
    ensures (name in listing && AllowedFile(name)) <==>
      exists k :: 0 <= k < |StaticSongs(true, listing, read)| &&
        StaticSongs(true, listing, read)[k].url == "/songs/" + PercentEncoding.Quote(name)
  {
    var songs := StaticSongs(true, listing, read);
    if name in listing && AllowedFile(name) {
      AllowedEntryHasRecord(listing, read, name);
    }
    if exists k :: 0 <= k < |songs| && songs[k].url == "/songs/" + PercentEncoding.Quote(name) {
      var k :| 0 <= k < |songs| && songs[k].url == "/songs/" + PercentEncoding.Quote(name);
      RecordIsAllowedEntry(listing, read, name, k);
    }
  }

  lemma AllowedEntryHasRecord(listing: seq<string>, read: string -> FileRead, name: string)
    requires name in listing && AllowedFile(name)
    ensures exists k ::
      0 <= k < |StaticSongs(true, listing, read)| &&
      StaticSongs(true, listing, read)[k].url == "/songs/" + PercentEncoding.Quote(name)
  {
    var allowed := Seqs.Filter(listing, AllowedFile);
    StaticSongsSelected(listing, read);
    Seqs.FilterMembership(listing, AllowedFile, name);
    var k :| 0 <= k < |allowed| && allowed[k] == name;
    assert StaticSongs(true, listing, read)[k].url == "/songs/" + PercentEncoding.Quote(name);
  }

  lemma RecordIsAllowedEntry(listing: seq<string>, read: string -> FileRead, name: string, k: nat)
    requires k < |StaticSongs(true, listing, read)|
    requires StaticSongs(true, listing, read)[k].url == "/songs/" + PercentEncoding.Quote(name)
    ensures name in listing && AllowedFile(name)
  {
    var allowed := Seqs.Filter(listing, AllowedFile);
    StaticSongsSelected(listing, read);
    Seqs.FilterMembership(listing, AllowedFile, allowed[k]);
    var url := StaticSongs(true, listing, read)[k].url;
    assert url[7..] == PercentEncoding.Quote(name);
    assert url[7..] == PercentEncoding.Quote(allowed[k]);
    PercentEncoding.EncodeInjective(PercentEncoding.PythonQuote, name, allowed[k]);
    assert allowed[k] in allowed;
  }

  /** Record ids are distinct: each is numbered by a different listing position. */
  lemma StaticIdsDistinct(listing: seq<string>, read: string -> FileRead, a: nat, b: nat)
    requires a < b < |StaticSongs(true, listing, read)|
    ensures StaticSongs(true, listing, read)[a].id != StaticSongs(true, listing, read)[b].id
  {
    var songs := StaticSongs(true, listing, read);
    var ps := Seqs.Positions(listing, AllowedFile);
    StaticSongsSelected(listing, read);
    Seqs.PositionsSpec(listing, AllowedFile);
    assert ps[a] < ps[b];
    var pre := "static-";
    assert songs[a].id[|pre|..] == NatToString(ps[a] + 1);
    assert songs[b].id[|pre|..] == NatToString(ps[b] + 1);
    NatToStringInjective(ps[a] + 1, ps[b] + 1);
  }

  lemma SplitExtRootNonEmpty(name: string)
    requires |name| > 0
    ensures |SplitExtRoot(name)| > 0
  {
  }

  /** Every record has a non-empty title and artist: the fallback title of an allowed name
      is never empty, because its root keeps at least one character. */
  lemma StaticRecordNamed(position: nat, filename: string, read: FileRead)
    requires AllowedFile(filename)
    ensures StaticRecord(position, filename, read).title != ""
    ensures StaticRecord(position, filename, read).artist != ""
    ensures !Truthy(TagArtist(read)) ==> StaticRecord(position, filename, read).artist == "Unknown Artist"
    ensures StaticRecord(position, filename, read).duration.None? <==> read.Unreadable?
  {
    SplitExtRootNonEmpty(filename);
  }
}
