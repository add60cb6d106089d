/** The upload middleware's configuration: the file filter, which accepts a
    file by its media type alone, and the 25 MiB size limit. */
module MulterConfig {
  import opened Wrappers
  import opened JsStrings
  import opened Http

  const AudioPrefix: string := "audio/"

  /** `limits.fileSize`: 25 MiB. */
  const FileSizeLimit: nat := 25 * 1024 * 1024

  const OnlyAudioMessage: string := "Only audio files are allowed!"

  /** The arguments the filter passes to multer's callback `cb(error, accept)`. */
  datatype FilterCallback = FilterCallback(error: Option<ServerError>, accept: bool)

  /** fileFilter: accept exactly the files whose media type starts with
      "audio/"; otherwise report a plain Error and refuse. The request is a
      parameter the filter never looks at. */
  function FileFilter<Req>(req: Req, file: UploadedFile): (cb: FilterCallback)
    ensures cb.accept <==> StartsWith(file.mimetype, AudioPrefix)
    ensures cb.accept <==> cb.error.None?
    ensures !cb.accept ==> cb.error == Some(PlainError(OnlyAudioMessage))
  {
    if StartsWith(file.mimetype, AudioPrefix) then FilterCallback(None, true)
    else FilterCallback(Some(PlainError(OnlyAudioMessage)), false)
  }

  /** The filter's verdict depends on the media type and nothing else: not on
      the request, the file name, the size or the bytes. */
  lemma FilterReadsOnlyMimetype<Req>(req0: Req, req1: Req, f0: UploadedFile, f1: UploadedFile)
    requires f0.mimetype == f1.mimetype
    ensures FileFilter(req0, f0) == FileFilter(req1, f1)
  {
  }

  /** The prefix test is exact: an upper-case first letter fails it, and so
      does a type without the slash, while any subtype after "audio/" passes. */
  lemma FilterIsCaseSensitive<Req>(req: Req, f: UploadedFile, subtype: string)
    ensures f.mimetype == "Audio/mpeg" ==> !FileFilter(req, f).accept
    ensures f.mimetype == "audio" ==> !FileFilter(req, f).accept
    ensures f.mimetype == AudioPrefix + subtype ==> FileFilter(req, f).accept
  {
    if f.mimetype == "Audio/mpeg" {
      assert f.mimetype[0] != AudioPrefix[0];
    }
    if f.mimetype == AudioPrefix + subtype {
      assert f.mimetype[..|AudioPrefix|] == AudioPrefix;
    }
  }

  lemma FileSizeLimitValue()
    ensures FileSizeLimit == 26214400
  {
  }

  /** What the configured middleware makes of one upload: the filter runs
      first; a file it accepts that is larger than the limit is refused with
      multer's LIMIT_FILE_SIZE error; any other file reaches the handler. */
  function Upload(file: UploadedFile): (r: Result<UploadedFile, ServerError>)
    ensures r.Success? <==> StartsWith(file.mimetype, AudioPrefix) && file.size <= FileSizeLimit
    ensures r.Success? ==> r.value == file
    ensures !StartsWith(file.mimetype, AudioPrefix) ==> r == Failure(PlainError(OnlyAudioMessage))
    ensures StartsWith(file.mimetype, AudioPrefix) && file.size > FileSizeLimit
      ==> r == Failure(MulterError("LIMIT_FILE_SIZE", "File too large"))
  {
    var cb := FileFilter((), file);
    if !cb.accept then Failure(cb.error.value)
    else if file.size > FileSizeLimit then Failure(MulterError("LIMIT_FILE_SIZE", "File too large"))
    else Success(file)
  }

  /** The limit is inclusive: a file of exactly 25 MiB passes, one byte more
      does not. */
  lemma SizeLimitBoundary(file: UploadedFile)
    requires StartsWith(file.mimetype, AudioPrefix)
    ensures file.size == 26214400 ==> Upload(file).Success?
    ensures file.size == 26214401 ==> Upload(file).Failure?
  {
  }
}
