/** The backend's choice of a playable file inside an Internet Archive item
    (app.py, `get_song_url_from_archive`). The metadata reply is an input; the JSON file
    records keep only the two fields the selection reads. */
module ArchiveFiles {
  import opened Text
  import PercentEncoding

  const ArchiveBase := "https://archive.org"

  /** A JSON field: absent, a string, or any other JSON value (`null`, a number, ...), on
      which `.upper()` / `.lower()` raise. */
  datatype Field = Missing | Text(s: string) | NonText

  datatype ArchiveFile = ArchiveFile(name: Field, format: Field)

  /** A file is well formed when neither field holds a non-string. */
  predicate WellFormed(f: ArchiveFile) {
    !f.name.NonText? && !f.format.NonText?
  }

  /** The tests of the three tiers, in the order they are tried. */
  datatype Rule =
    | FormatIs(format: string)     // tier 1: the format, upper-cased, equals this one upper-cased
    | NameEndsWith(ext: string)    // tier 2: the lower-cased name ends with this extension
    | AudioKeyword                 // tier 3: an audio keyword, and no excluded extension

  const AudioFormats: seq<string> :=
    ["VBR MP3", "MP3", "Ogg Vorbis", "MPEG Audio", "WAVE", "FLAC", "M4A", "AAC"]
  const AudioExtensions: seq<string> := [".mp3", ".ogg", ".wav", ".flac", ".m4a", ".aac"]
  const AudioKeywords: seq<string> := ["audio", "song", "music", "track"]
  const ExcludedExtensions: seq<string> := [".txt", ".pdf", ".jpg", ".png", ".gif", ".xml", ".json"]

  function FormatRules(): (r: seq<Rule>)
    ensures |r| == |AudioFormats|
  {
    seq(|AudioFormats|, k requires 0 <= k < |AudioFormats| => FormatIs(AudioFormats[k]))
  }

  function ExtensionRules(): (r: seq<Rule>)
    ensures |r| == |AudioExtensions|
  {
    seq(|AudioExtensions|, k requires 0 <= k < |AudioExtensions| => NameEndsWith(AudioExtensions[k]))
  }

  /** Tier 1, then tier 2, then the single pass of tier 3. */
  function Rules(): seq<Rule> {
    FormatRules() + ExtensionRules() + [AudioKeyword]
  }

  datatype Outcome = Yes | No | Raise

  /** `file.get(key, '')` followed by a case mapping. */
  function Cased(f: Field, upper: bool): Option<string> {
    match f
      case Missing => Some("")
      case Text(s) => Some(if upper then Upper(s) else Lower(s))
      case NonText => None
  }

  predicate AnyKeywordIn(name: string, format: string) {
    exists k :: 0 <= k < |AudioKeywords| &&
      (Contains(name, AudioKeywords[k]) || Contains(format, AudioKeywords[k]))
  }

  predicate AnyExcludedIn(name: string) {
    exists k :: 0 <= k < |ExcludedExtensions| && Contains(name, ExcludedExtensions[k])
  }

  /** What one test of the selection makes of one file. */
  function Apply(rule: Rule, f: ArchiveFile): Outcome {
    match rule
      case FormatIs(fmt) =>
        (match Cased(f.format, true)
          case None => Raise
          case Some(u) => if u == Upper(fmt) then Yes else No)
      case NameEndsWith(ext) =>
        (match Cased(f.name, false)
          case None => Raise
          case Some(n) => if EndsWith(n, ext) then Yes else No)
      case AudioKeyword =>
        (match Cased(f.name, false)
          case None => Raise
          case Some(n) =>
            match Cased(f.format, false)
              case None => Raise
              case Some(t) => if AnyKeywordIn(n, t) && !AnyExcludedIn(n) then Yes else No)
  }

  /** A test never raises on a well-formed file. */
  lemma ApplyWellFormed(rule: Rule, f: ArchiveFile)
    requires WellFormed(f)
    ensures Apply(rule, f) != Raise
  {
  }

  datatype Hit = HitAt(index: nat) | NoHit | Raises

  /** One inner loop: the first file from `start` on that the test accepts; a file on which
      the test raises ends the scan. */
  function FirstHitFrom(files: seq<ArchiveFile>, rule: Rule, start: nat): (r: Hit)
    requires start <= |files|
    ensures r.HitAt? ==> start <= r.index < |files| && Apply(rule, files[r.index]) == Yes
    ensures r.HitAt? ==> forall j :: start <= j < r.index ==> Apply(rule, files[j]) == No
    ensures r.NoHit? <==> forall j :: start <= j < |files| ==> Apply(rule, files[j]) == No
    ensures r.Raises? ==> exists j :: start <= j < |files| && Apply(rule, files[j]) == Raise
    decreases |files| - start
  {
    if start == |files| then NoHit
    else match Apply(rule, files[start])
      case Yes => HitAt(start)
      case Raise => Raises
      case No => FirstHitFrom(files, rule, start + 1)
  }

  /** The result of the selection: a file found by the test of rank `rank`, no file, or an
      exception. */
  datatype Scan = Found(rank: nat, index: nat) | Miss | Raised

  /** The outer loops: the tests from rank `from` on, each scanning the whole file list. */
  function SearchFrom(files: seq<ArchiveFile>, rules: seq<Rule>, from: nat): (r: Scan)
    requires from <= |rules|
    ensures r.Found? ==> from <= r.rank < |rules| && r.index < |files|
    ensures r.Found? ==> Apply(rules[r.rank], files[r.index]) == Yes
    ensures r.Found? ==> forall k, j :: from <= k < r.rank && 0 <= j < |files| ==>
      Apply(rules[k], files[j]) == No
    ensures r.Found? ==> forall j :: 0 <= j < r.index ==> Apply(rules[r.rank], files[j]) == No
    ensures r.Miss? <==> forall k, j :: from <= k < |rules| && 0 <= j < |files| ==>
      Apply(rules[k], files[j]) == No
    ensures r.Raised? ==>
      exists k, j :: from <= k < |rules| && 0 <= j < |files| && Apply(rules[k], files[j]) == Raise
    decreases |rules| - from
  {
    if from == |rules| then Miss
    else match FirstHitFrom(files, rules[from], 0)
      case HitAt(i) => Found(from, i)
      case Raises => Raised
      case NoHit => SearchFrom(files, rules, from + 1)
  }

  /** The whole three-tier selection. */
  function Select(files: seq<ArchiveFile>): Scan {
    SearchFrom(files, Rules(), 0)
  }

  /** One inner loop of `get_song_url_from_archive`. */
  method FindByRule(files: seq<ArchiveFile>, rule: Rule) returns (hit: Hit)
    ensures hit == FirstHitFrom(files, rule, 0)
  {
    var j := 0;
    while j < |files|
      invariant 0 <= j <= |files|
      invariant FirstHitFrom(files, rule, 0) == FirstHitFrom(files, rule, j)
    {
      var outcome := Apply(rule, files[j]);
      if outcome == Raise {
        return Raises;
      } else if outcome == Yes {
        return HitAt(j);
      }
      j := j + 1;
    }
    return NoHit;
  }

  /** The tiered search of `get_song_url_from_archive`: each test in turn scans the files. */
  method SelectAudioFile(files: seq<ArchiveFile>) returns (scan: Scan)
    ensures scan == Select(files)
  {
    var rules := Rules();
    var r := 0;
    while r < |rules|
      invariant 0 <= r <= |rules|
      invariant SearchFrom(files, rules, 0) == SearchFrom(files, rules, r)
    {
      var hit := FindByRule(files, rules[r]);
      if hit.Raises? {
        return Raised;
      } else if hit.HitAt? {
        return Found(r, hit.index);
      }
      r := r + 1;
    }
    return Miss;
  }

  /** On well-formed files the selection never raises. */
  lemma SelectWellFormed(files: seq<ArchiveFile>)
    requires forall j :: 0 <= j < |files| ==> WellFormed(files[j])
    ensures !Select(files).Raised?
  {
    if Select(files).Raised? {
      var k, j :| 0 <= k < |Rules()| && 0 <= j < |files| && Apply(Rules()[k], files[j]) == Raise;
      ApplyWellFormed(Rules()[k], files[j]);
    }
  }

  /** Tier priority: when some well-formed file has a listed format, the chosen file is found
      by a format test, whatever names the files carry; and a file found by a later format
      test means no file carries an earlier format. */
  lemma FormatTierFirst(files: seq<ArchiveFile>, j: nat, k: nat)
    requires forall i :: 0 <= i < |files| ==> WellFormed(files[i])
    requires j < |files| && k < |AudioFormats|
    requires Apply(FormatIs(AudioFormats[k]), files[j]) == Yes
    ensures Select(files).Found? && Select(files).rank <= k
    ensures Select(files).rank == k ==> Select(files).index <= j
  {
    SelectWellFormed(files);
    RuleOfFormat(k);
    SearchStopsAtFirstYes(files, Rules(), k, j);
  }

  /** The test of rank `k`, for `k` below the number of formats, is that format's test. */
  lemma RuleOfFormat(k: nat)
    requires k < |AudioFormats|
    ensures k < |Rules()| && Rules()[k] == FormatIs(AudioFormats[k])
  {
    assert Rules()[k] == FormatRules()[k];
  }

  /** A file the test of rank `k` accepts bounds the search: unless it raises, it finds a
      file at rank `k` or before, and at rank `k` no later than that file. */
  lemma SearchStopsAtFirstYes(files: seq<ArchiveFile>, rules: seq<Rule>, k: nat, j: nat)
    requires k < |rules| && j < |files| && Apply(rules[k], files[j]) == Yes
    requires !SearchFrom(files, rules, 0).Raised?
    ensures SearchFrom(files, rules, 0).Found? && SearchFrom(files, rules, 0).rank <= k
    ensures SearchFrom(files, rules, 0).rank == k ==> SearchFrom(files, rules, 0).index <= j
  {
  }

  // ---------------------------------------------------------------- the URL

  /** The body of a metadata reply: not a JSON object (or not iterable as a file list), or
      the `files` list (an absent key reads as an empty list). */
  datatype FilesBody = Malformed | Files(files: seq<ArchiveFile>)

  /** The metadata request: it failed (connection error, timeout), or a status and body came
      back. */
  datatype MetadataReply = Unreachable | Reply(status: int, body: FilesBody)

  function DownloadUrl(identifier: string, path: string): string {
    ArchiveBase + "/download/" + identifier + "/" + path
  }

  /** `get_song_url_from_archive(identifier)`. */
  function ArchiveUrl(identifier: string, reply: MetadataReply): Option<string> {
    if !reply.Reply? || reply.status != 200 || !reply.body.Files? then None
    else
      var files := reply.body.files;
      match Select(files)
        case Raised => None
        case Miss => Some(DownloadUrl(identifier, identifier + ".mp3"))
        case Found(_, i) =>
          match files[i].name
            case Text(n) => Some(DownloadUrl(identifier, PercentEncoding.Quote(n)))
            case _ => None
  }

  /** None comes only from a failed request, a non-200 status, a malformed body, or an
      exception while selecting or reading the chosen file's name. */
  lemma ArchiveUrlNone(identifier: string, reply: MetadataReply)
    ensures ArchiveUrl(identifier, reply).None? <==>
      (!reply.Reply? || reply.status != 200 || !reply.body.Files? ||
       Select(reply.body.files).Raised? ||
       (Select(reply.body.files).Found? && !reply.body.files[Select(reply.body.files).index].name.Text?))
  {
  }

  /** A 200 reply in which no test matches gives the `{identifier}.mp3` guess. */
  lemma ArchiveUrlFallback(identifier: string, files: seq<ArchiveFile>)
    requires forall k, j :: 0 <= k < |Rules()| && 0 <= j < |files| ==> Apply(Rules()[k], files[j]) == No
    ensures ArchiveUrl(identifier, Reply(200, Files(files))) ==
      Some(ArchiveBase + "/download/" + identifier + "/" + identifier + ".mp3")
  {
    assert Select(files).Miss?;
    assert DownloadUrl(identifier, identifier + ".mp3") ==
      ArchiveBase + "/download/" + identifier + "/" + identifier + ".mp3";
  }

  /** A found file's URL names that file: it is the download prefix followed by the quoted
      name, and that last segment percent-decodes back to the name. */
  lemma ArchiveUrlNamesFile(identifier: string, files: seq<ArchiveFile>, rank: nat, index: nat, name: string)
    requires Select(files) == Found(rank, index)
    requires files[index].name == Text(name)
    ensures ArchiveUrl(identifier, Reply(200, Files(files))) ==
      Some(DownloadUrl(identifier, PercentEncoding.Quote(name)))
    ensures PercentEncoding.Decode(PercentEncoding.Quote(name)) == Some(name)
  {
    PercentEncoding.RoundTrip(PercentEncoding.PythonQuote, name);
  }

  /** When every file is well formed and carries a string name, every 200 reply with a file
      list yields a URL. */
  lemma ArchiveUrlWellFormed(identifier: string, files: seq<ArchiveFile>)
    requires forall j :: 0 <= j < |files| ==> WellFormed(files[j]) && files[j].name.Text?
    ensures ArchiveUrl(identifier, Reply(200, Files(files))).Some?
  {
    SelectWellFormed(files);
  }
}
