/**
  The routing of uploaded files in the dashboard's chat-send endpoint: each
  file goes to the gif, image, video or audio batch by its mimetype, or is
  refused for its size, which ends the whole request with an error.
 */
module Uploads {
  import opened Wrappers

  /** 50 MB: the largest file accepted. */
  const MaxFileSize: nat := 50 * 1024 * 1024
  /** 20 MB: the largest still image accepted. */
  const MaxPhotoSize: nat := 20 * 1024 * 1024

  /** One uploaded file: its name, its declared mimetype, and its size in bytes. */
  datatype Upload = Upload(filename: string, mimetype: string, size: nat)

  datatype Bucket = Images | Videos | Audios | Gifs

  /** Why a request was refused; the refused file's name is part of the message. */
  datatype Rejection = ImageTooLarge(filename: string) | FileTooLarge(filename: string)

  /** The error text returned with status 400; it names the refused file after its first word. */
  function RejectionMessage(r: Rejection): (m: string)
    ensures r.ImageTooLarge? ==> |m| >= 6 + |r.filename| && m[..6] == "Image " && m[6..6 + |r.filename|] == r.filename
    ensures r.FileTooLarge? ==> |m| >= 5 + |r.filename| && m[..5] == "File " && m[5..5 + |r.filename|] == r.filename
  {
    match r
    case ImageTooLarge(f) => "Image " + f + " is too large. Maximum size is 20MB."
    case FileTooLarge(f) => "File " + f + " is too large. Maximum size is 50MB."
  }

  /** The four batches, each a list of file names in upload order. */
  datatype Buckets = Buckets(images: seq<string>, videos: seq<string>, audios: seq<string>, gifs: seq<string>)
  {
    function Of(k: Bucket): seq<string>
    {
      match k
      case Images => images
      case Videos => videos
      case Audios => audios
      case Gifs => gifs
    }

    /** The number of file names over all four batches. */
    function Size(): nat
    {
      |images| + |videos| + |audios| + |gifs|
    }

    function With(k: Bucket, name: string): (r: Buckets)
      ensures r.Of(k) == Of(k) + [name]
      ensures r.Size() == Size() + 1
      ensures forall j :: j != k ==> r.Of(j) == Of(j)
    {
      match k
      case Images => this.(images := images + [name])
      case Videos => this.(videos := videos + [name])
      case Audios => this.(audios := audios + [name])
      case Gifs => this.(gifs := gifs + [name])
    }
  }

  const GifType: string := "image/gif"

  predicate IsImageType(mimetype: string) { "image/" <= mimetype }
  predicate IsVideoType(mimetype: string) { "video/" <= mimetype }
  predicate IsAudioType(mimetype: string) { "audio/" <= mimetype }

  /** A mimetype has at most one of the three major types. */
  lemma MajorTypesExclusive(mimetype: string)
    ensures !(IsImageType(mimetype) && IsVideoType(mimetype))
    ensures !(IsImageType(mimetype) && IsAudioType(mimetype))
    ensures !(IsVideoType(mimetype) && IsAudioType(mimetype))
  {
    if IsImageType(mimetype) { assert mimetype[0] == 'i'; }
    if IsVideoType(mimetype) { assert mimetype[0] == 'v'; }
    if IsAudioType(mimetype) { assert mimetype[0] == 'a'; }
  }

  /**
    What happens to one file: a gif is batched whatever its size; another
    image over 20 MB and any other file over 50 MB refuse the request;
    otherwise an image, video or audio file joins its batch and anything else
    is saved but sent nowhere.
   */
  function Decide(u: Upload): (r: Result<Option<Bucket>, Rejection>)
    ensures r == Success(Some(Gifs)) <==> u.mimetype == GifType
    ensures r.Failure? <==>
              u.mimetype != GifType && ((IsImageType(u.mimetype) && u.size > MaxPhotoSize) || u.size > MaxFileSize)
    ensures r == Failure(ImageTooLarge(u.filename)) <==>
              u.mimetype != GifType && IsImageType(u.mimetype) && u.size > MaxPhotoSize
    ensures r.Failure? ==> r.error.filename == u.filename
    ensures r == Success(Some(Images)) <==>
              IsImageType(u.mimetype) && u.mimetype != GifType && u.size <= MaxPhotoSize
    ensures r == Success(Some(Videos)) <==> IsVideoType(u.mimetype) && u.size <= MaxFileSize
    ensures r == Success(Some(Audios)) <==> IsAudioType(u.mimetype) && u.size <= MaxFileSize
    ensures r == Success(None) <==>
              !IsImageType(u.mimetype) && !IsVideoType(u.mimetype) && !IsAudioType(u.mimetype) && u.size <= MaxFileSize
  {
    MajorTypesExclusive(u.mimetype);
    if u.mimetype == GifType then Success(Some(Gifs))
    else if IsImageType(u.mimetype) && u.size > MaxPhotoSize then Failure(ImageTooLarge(u.filename))
    else if u.size > MaxFileSize then Failure(FileTooLarge(u.filename))
    else if IsImageType(u.mimetype) then Success(Some(Images))
    else if IsVideoType(u.mimetype) then Success(Some(Videos))
    else if IsAudioType(u.mimetype) then Success(Some(Audios))
    else Success(None)
  }

  /** The files decided one after the other; the first refusal is the outcome. */
  function Route(files: seq<Upload>): Result<Buckets, Rejection>
    decreases |files|
  {
    if files == [] then Success(Buckets([], [], [], []))
    else
      var last := files[|files| - 1];
      match Route(files[..|files| - 1])
      case Failure(e) => Failure(e)
      case Success(b) =>
        match Decide(last)
        case Failure(e) => Failure(e)
        case Success(None) => Success(b)
        case Success(Some(k)) => Success(b.With(k, last.filename))
  }

  /** The names of the files Decide puts into bucket k, in upload order. */
  function NamesIn(files: seq<Upload>, k: Bucket): seq<string>
    decreases |files|
  {
    if files == [] then []
    else
      var last := files[|files| - 1];
      NamesIn(files[..|files| - 1], k) + (if Decide(last) == Success(Some(k)) then [last.filename] else [])
  }

  /** Each file joins at most one batch. */
  lemma {:induction false} RouteSize(files: seq<Upload>)
    requires Route(files).Success?
    ensures Route(files).value.Size() <= |files|
    decreases |files|
  {
    if files != [] {
      RouteSize(files[..|files| - 1]);
    }
  }

  /** A refusal in a prefix is the outcome of the whole request. */
  lemma {:induction false} RefusalSticks(files: seq<Upload>, i: nat)
    requires i <= |files|
    requires Route(files[..i]).Failure?
    ensures Route(files) == Route(files[..i])
    decreases |files|
  {
    if i < |files| {
      var init := files[..|files| - 1];
      assert init[..i] == files[..i];
      RefusalSticks(init, i);
    } else {
      assert files[..i] == files;
    }
  }

  /** The outcome of a non-empty request in terms of its prefix and its last file. */
  lemma RouteLast(files: seq<Upload>)
    requires files != []
    ensures var init, last := files[..|files| - 1], files[|files| - 1];
      Route(files).Success? <==> Route(init).Success? && Decide(last).Success?
  {
  }

  /** A request is accepted exactly when no file is refused. */
  lemma {:induction false} RouteAccepted(files: seq<Upload>)
    ensures Route(files).Success? <==> forall i :: 0 <= i < |files| ==> Decide(files[i]).Success?
    decreases |files|
  {
    if files != [] {
      var init, last := files[..|files| - 1], files[|files| - 1];
      RouteAccepted(init);
      RouteLast(files);
      assert forall i :: 0 <= i < |init| ==> init[i] == files[i];
      assert (forall i :: 0 <= i < |files| ==> Decide(files[i]).Success?) <==>
             (forall i :: 0 <= i < |init| ==> Decide(init[i]).Success?) && Decide(last).Success?;
    }
  }

  /** An accepted request's batches hold the names of the files Decide gives them, in upload order. */
  lemma {:induction false} RouteBatches(files: seq<Upload>)
    requires Route(files).Success?
    ensures forall k :: Route(files).value.Of(k) == NamesIn(files, k)
    decreases |files|
  {
    if files != [] {
      var init := files[..|files| - 1];
      RouteLast(files);
      RouteBatches(init);
    }
  }

  /** In an accepted request no non-gif image is over 20 MB and no non-gif file over 50 MB. */
  lemma AcceptedSizes(files: seq<Upload>)
    requires Route(files).Success?
    ensures forall i :: 0 <= i < |files| && files[i].mimetype != GifType ==>
              files[i].size <= MaxFileSize && (IsImageType(files[i].mimetype) ==> files[i].size <= MaxPhotoSize)
  {
    RouteAccepted(files);
  }

  /** A refused request names the first refused file, and every file before it was accepted. */
  lemma {:induction false} RouteRefused(files: seq<Upload>)
    requires Route(files).Failure?
    ensures exists i :: 0 <= i < |files| && Decide(files[i]) == Failure(Route(files).error) &&
                        forall j :: 0 <= j < i ==> Decide(files[j]).Success?
    decreases |files|
  {
    var n := |files|;
    var init := files[..n - 1];
    if Route(init).Failure? {
      RouteRefused(init);
      var i :| 0 <= i < |init| && Decide(init[i]) == Failure(Route(init).error) &&
               forall j :: 0 <= j < i ==> Decide(init[j]).Success?;
      assert init[i] == files[i];
      assert forall j :: 0 <= j < i ==> init[j] == files[j];
    } else {
      RouteAccepted(init);
      assert forall j :: 0 <= j < n - 1 ==> init[j] == files[j];
      assert Decide(files[n - 1]) == Failure(Route(files).error);
    }
  }

  /**
    The error text of a refused request names a file of the request whose
    size the rules refuse.
   */
  lemma RefusalMessageNamesFile(files: seq<Upload>)
    requires Route(files).Failure?
    ensures var e := Route(files).error;
            && (exists i :: 0 <= i < |files| && files[i].filename == e.filename && Decide(files[i]).Failure?)
            && var m := RejectionMessage(e);
               (m[..6] == "Image " && m[6..6 + |e.filename|] == e.filename) ||
               (m[..5] == "File " && m[5..5 + |e.filename|] == e.filename)
  {
    RouteRefused(files);
  }

  /**
    The loop of the chat-send endpoint over the uploaded files: the gif
    check, then the size checks, then the batching of the file by type.
   */
  method RouteUploads(files: seq<Upload>) returns (r: Result<Buckets, Rejection>)
    ensures r == Route(files)
  {
    var images, videos, audios, gifs := [], [], [], [];
    var i := 0;
    while i < |files|
      invariant 0 <= i <= |files|
      invariant Route(files[..i]) == Success(Buckets(images, videos, audios, gifs))
    {
      var file := files[i];
      assert files[..i + 1][..i] == files[..i] && files[..i + 1][i] == file;
      ghost var before := Buckets(images, videos, audios, gifs);
      assert Route(files[..i + 1]) == match Decide(file)
        case Failure(e) => Failure(e)
        case Success(None) => Success(before)
        case Success(Some(k)) => Success(before.With(k, file.filename));
      MajorTypesExclusive(file.mimetype);
      if file.mimetype == GifType {
        assert IsImageType(file.mimetype);
        gifs := gifs + [file.filename];
      } else if IsImageType(file.mimetype) && file.size > MaxPhotoSize {
        RefusalSticks(files, i + 1);
        return Failure(ImageTooLarge(file.filename));
      } else if file.size > MaxFileSize {
        RefusalSticks(files, i + 1);
        return Failure(FileTooLarge(file.filename));
      }
      if IsImageType(file.mimetype) && file.mimetype != GifType {
        images := images + [file.filename];
      } else if IsVideoType(file.mimetype) {
        videos := videos + [file.filename];
      } else if IsAudioType(file.mimetype) {
        audios := audios + [file.filename];
      }
      i := i + 1;
    }
    assert files[..i] == files;
    r := Success(Buckets(images, videos, audios, gifs));
  }
}
