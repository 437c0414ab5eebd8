/**
  Pure rules the inbound-message handler of the dashboard applies to one
  Telegram message: which media kind it carries, whether it goes into the
  media-group aggregator, how a Bot API file path becomes a URL, and the
  text labels written to the message log.
 */
module Messages {
  import opened Wrappers

  type UserId = int
  type FileId = string
  type GroupId = string
  type Url = string

  datatype MediaKind = Image | Video | Voice | Audio | Gif

  /** The parts of an inbound message the handler looks at. */
  datatype IncomingMessage = IncomingMessage(
    mediaGroupId: Option<GroupId>,
    photo: seq<FileId>,          // one file id per size of the photo, the largest last
    video: Option<FileId>,
    voice: Option<FileId>,
    audio: Option<FileId>,
    animation: Option<FileId>,
    text: Option<string>)

  /** The media kind chosen for a message and the file id fetched for it. */
  datatype Media = Media(kind: MediaKind, fileId: FileId)

  // ---------------------------------------------------------------------
  // Classification
  // ---------------------------------------------------------------------

  /** Precedence of the kinds when a message carries several: lower wins. */
  function Rank(k: MediaKind): nat
  {
    match k
    case Image => 0
    case Video => 1
    case Voice => 2
    case Audio => 3
    case Gif => 4
  }

  /** Does the message carry an attachment of kind k? (A photo list is present when non-empty.) */
  predicate Carries(m: IncomingMessage, k: MediaKind)
  {
    match k
    case Image => m.photo != []
    case Video => m.video.Some?
    case Voice => m.voice.Some?
    case Audio => m.audio.Some?
    case Gif => m.animation.Some?
  }

  /** The file id of the attachment of kind k; for a photo, its largest size. */
  function FileIdOf(m: IncomingMessage, k: MediaKind): FileId
    requires Carries(m, k)
  {
    match k
    case Image => m.photo[|m.photo| - 1]
    case Video => m.video.value
    case Voice => m.voice.value
    case Audio => m.audio.value
    case Gif => m.animation.value
  }

  /**
    The if/elif chain that picks the media type and file id: photo, then
    video, voice, audio, animation. The result is the carried kind of least
    rank, with that attachment's file id.
   */
  function Classify(m: IncomingMessage): (r: Option<Media>)
    ensures r.None? <==> forall k :: !Carries(m, k)
    ensures r.Some? ==> Carries(m, r.value.kind) && r.value.fileId == FileIdOf(m, r.value.kind)
    ensures r.Some? ==> forall k :: Carries(m, k) ==> Rank(r.value.kind) <= Rank(k)
  {
    if m.photo != [] then assert Carries(m, Image); Some(Media(Image, m.photo[|m.photo| - 1]))
    else if m.video.Some? then assert Carries(m, Video); Some(Media(Video, m.video.value))
    else if m.voice.Some? then assert Carries(m, Voice); Some(Media(Voice, m.voice.value))
    else if m.audio.Some? then assert Carries(m, Audio); Some(Media(Audio, m.audio.value))
    else if m.animation.Some? then assert Carries(m, Gif); Some(Media(Gif, m.animation.value))
    else None
  }

  /** The kinds the aggregator accepts: every kind except audio. */
  predicate Groupable(k: MediaKind)
  {
    k == Image || k == Video || k == Voice || k == Gif
  }

  /** A media group id is present and non-empty (an empty string is falsy in the source). */
  predicate HasGroupId(m: IncomingMessage)
  {
    m.mediaGroupId.Some? && m.mediaGroupId.value != ""
  }

  /** The guard of the grouping branch of the handler. */
  function EntersAggregator(m: IncomingMessage): (b: bool)
    ensures b ==> HasGroupId(m) && Classify(m).Some? && Groupable(Classify(m).value.kind)
    ensures HasGroupId(m) && (Carries(m, Image) || Carries(m, Video) || Carries(m, Voice)) ==> b
    ensures HasGroupId(m) && Carries(m, Gif) && !Carries(m, Audio) ==> b
    ensures Carries(m, Audio) && !Carries(m, Image) && !Carries(m, Video) && !Carries(m, Voice) ==> !b
    ensures (forall k :: !Carries(m, k)) ==> !b
  {
    HasGroupId(m) && match Classify(m)
      case Some(media) => Groupable(media.kind)
      case None => false
  }

  // ---------------------------------------------------------------------
  // File URL resolution
  // ---------------------------------------------------------------------

  /** Prefix of the Bot API file download URL for a bot token. */
  function FileBase(token: string): string
  {
    "https://api.telegram.org/file/bot" + token + "/"
  }

  /**
    The URL stored for a file: a file path that already starts with "http"
    is kept as it is, any other path is appended to the bot's file base URL.
   */
  function ResolveUrl(token: string, filePath: string): (r: Url)
    ensures "http" <= r
    ensures |filePath| <= |r| && r[|r| - |filePath|..] == filePath
    ensures "http" <= filePath ==> r == filePath
    ensures !("http" <= filePath) ==> r == FileBase(token) + filePath
  {
    if "http" <= filePath then filePath else FileBase(token) + filePath
  }

  /** Resolving an already resolved URL changes nothing. */
  lemma ResolveUrlIdempotent(token: string, filePath: string)
    ensures ResolveUrl(token, ResolveUrl(token, filePath)) == ResolveUrl(token, filePath)
  {
  }

  // ---------------------------------------------------------------------
  // Labels
  // ---------------------------------------------------------------------

  /** Prefix of a single-item log entry, written directly before the URL: a bracketed tag on one line. */
  function SinglePrefix(k: MediaKind): (r: string)
    ensures |r| >= 3 && r[0] == '[' && r[|r| - 1] == ']'
    ensures '\n' !in r
  {
    match k
    case Image => "[image]"
    case Video => "[video]"
    case Voice => "[voice]"
    case Audio => "[audio]"
    case Gif => "[gif]"
  }

  /**
    First line of a consolidated media-group entry, a bracketed plural tag
    without newlines; the lookup is defined for groupable kinds only.
   */
  function GroupLabel(k: MediaKind): (r: string)
    requires Groupable(k)
    ensures |r| >= 4 && r[0] == '[' && r[|r| - 2..] == "s]"
    ensures '\n' !in r
  {
    match k
    case Image => "[images]"
    case Video => "[videos]"
    case Voice => "[voices]"
    case Gif => "[gifs]"
  }

  /** Each group label is the plural of its kind's single-item prefix. */
  lemma GroupLabelIsPlural(k: MediaKind)
    requires Groupable(k)
    ensures var p := SinglePrefix(k); |p| >= 2 && GroupLabel(k) == p[..|p| - 1] + "s]"
  {
  }

  // ---------------------------------------------------------------------
  // Newline joining
  // ---------------------------------------------------------------------

  /** The items separated by single newlines; no items give the empty string. */
  function JoinLines(items: seq<string>): string
  {
    if |items| == 0 then ""
    else if |items| == 1 then items[0]
    else items[0] + "\n" + JoinLines(items[1..])
  }

  /** The text cut at every newline; the pieces never contain one. */
  function SplitLines(s: string): (r: seq<string>)
    ensures |r| >= 1
    ensures forall i :: 0 <= i < |r| ==> '\n' !in r[i]
  {
    if s == [] then [""]
    else
      var rest := SplitLines(s[1..]);
      if s[0] == '\n' then [""] + rest
      else [[s[0]] + rest[0]] + rest[1..]
  }

  /** A line without newlines is prefixed to the first piece of what follows it. */
  lemma {:induction false} SplitLinesPrefix(line: string, s: string)
    requires '\n' !in line
    ensures SplitLines(line + s)[0] == line + SplitLines(s)[0]
    ensures SplitLines(line + s)[1..] == SplitLines(s)[1..]
  {
    if line == [] {
      assert line + s == s;
    } else {
      assert (line + s)[1..] == line[1..] + s;
      assert (line + s)[0] == line[0] != '\n';
      SplitLinesPrefix(line[1..], s);
      assert line == [line[0]] + line[1..];
    }
  }

  /** Splitting the joined items gives the items back, when none holds a newline. */
  lemma {:induction false} SplitJoin(items: seq<string>)
    requires |items| >= 1
    requires forall i :: 0 <= i < |items| ==> '\n' !in items[i]
    ensures SplitLines(JoinLines(items)) == items
  {
    if |items| == 1 {
      SplitLinesPrefix(items[0], "");
      assert items[0] + "" == items[0];
    } else {
      var tail := "\n" + JoinLines(items[1..]);
      SplitJoin(items[1..]);
      SplitLinesPrefix(items[0], tail);
      assert tail[0] == '\n' && tail[1..] == JoinLines(items[1..]);
      assert SplitLines(tail) == [""] + items[1..];
      assert JoinLines(items) == items[0] + tail;
      assert items[0] + "" == items[0];
      assert items == [items[0]] + items[1..];
    }
  }

  /** The single message saved for a whole media group: the label on its own first line, then the URLs. */
  function ConsolidatedText(k: MediaKind, media: seq<Url>): (r: string)
    requires Groupable(k)
    ensures GroupLabel(k) + "\n" <= r
  {
    GroupLabel(k) + "\n" + JoinLines(media)
  }

  /** The consolidated text reads back as the label line followed by the URLs, in order. */
  lemma ConsolidatedTextLines(k: MediaKind, media: seq<Url>)
    requires Groupable(k)
    requires |media| >= 1
    requires forall i :: 0 <= i < |media| ==> '\n' !in media[i]
    ensures SplitLines(ConsolidatedText(k, media)) == [GroupLabel(k)] + media
  {
    SplitJoin([GroupLabel(k)] + media);
    assert ([GroupLabel(k)] + media)[1..] == media;
  }

  // ---------------------------------------------------------------------
  // Single-message path
  // ---------------------------------------------------------------------

  /**
    What the handler saves for a message that does not go into the
    aggregator: the kind's prefix and the resolved URL for a media message,
    the text for a non-empty text message, and nothing otherwise. The file
    path is the one the Bot API returned for Classify(m)'s file id.
   */
  function SingleItemText(m: IncomingMessage, token: string, filePath: string): (r: Option<string>)
    ensures r.None? <==> (forall k :: !Carries(m, k)) && (m.text.None? || m.text.value == "")
    ensures Classify(m).Some? ==> r == Some(SinglePrefix(Classify(m).value.kind) + ResolveUrl(token, filePath))
    ensures Classify(m).None? && r.Some? ==> r.value == m.text.value
  {
    match Classify(m)
    case Some(media) => Some(SinglePrefix(media.kind) + ResolveUrl(token, filePath))
    case None => if m.text.Some? && m.text.value != "" then Some(m.text.value) else None
  }
}
