/**
 * The upload side of the server (server/index.js): the stored name of an
 * uploaded file, the `/upload` handler, the mapping from an order's `fileUrl`
 * back to a file in the uploads directory, and the e-mail attachment built
 * from that file.
 *
 * Paths are sequences of segment names from the file-system root, so
 * `path.join` and `path.basename` are stated on segments. The file system is
 * the set of paths that exist; the clock is a parameter.
 */
module Uploads {
  import opened Wrappers
  import opened Strings
  import opened Js
  import opened OrderData

  // ---------------------------------------------------------------------------
  // Stored file names
  // ---------------------------------------------------------------------------

  /** The characters `[a-zA-Z0-9._-]` a stored file name keeps. */
  predicate IsSafeNameChar(c: char) {
    ('a' <= c <= 'z') || ('A' <= c <= 'Z') || ('0' <= c <= '9') || c == '.' || c == '_' || c == '-'
  }

  predicate AllSafe(s: string) {
    forall i :: 0 <= i < |s| ==> IsSafeNameChar(s[i])
  }

  /** `originalname.replace(/[^a-zA-Z0-9._-]/g, '_')`. */
  function SanitizeName(name: string): (r: string)
    ensures |r| == |name|
    ensures AllSafe(r)
    ensures forall i :: 0 <= i < |name| && IsSafeNameChar(name[i]) ==> r[i] == name[i]
    ensures forall i :: 0 <= i < |name| && !IsSafeNameChar(name[i]) ==> r[i] == '_'
  {
    seq(|name|, i requires 0 <= i < |name| => if IsSafeNameChar(name[i]) then name[i] else '_')
  }

  /** A name is left alone exactly when every character is already allowed. */
  lemma SanitizeFixesExactlySafeNames(name: string)
    ensures SanitizeName(name) == name <==> AllSafe(name)
  {
    if SanitizeName(name) == name {
      assert forall i :: 0 <= i < |name| ==> IsSafeNameChar(SanitizeName(name)[i]);
    }
  }

  /** Sanitising twice is sanitising once. */
  lemma SanitizeIdempotent(name: string)
    ensures SanitizeName(SanitizeName(name)) == SanitizeName(name)
  {
    SanitizeFixesExactlySafeNames(SanitizeName(name));
  }

  /** `${Date.now()}-${safeName}`: the name the upload is stored under. */
  function StoredFileName(nowMs: nat, originalName: string): string {
    NatToString(nowMs) + "-" + SanitizeName(originalName)
  }

  /** The stored name consists only of allowed characters, and reading it back
      at its first `-` yields the timestamp and the sanitised original name. */
  lemma StoredFileNameParts(nowMs: nat, originalName: string)
    ensures AllSafe(StoredFileName(nowMs, originalName))
    ensures var s := StoredFileName(nowMs, originalName);
            var k := |NatToString(nowMs)|;
            && k < |s| && s[k] == '-' && '-' !in s[..k]
            && AllDigits(s[..k]) && DigitsValue(s[..k]) == nowMs
            && s[k + 1..] == SanitizeName(originalName)
  {
    var s := StoredFileName(nowMs, originalName);
    var d := NatToString(nowMs);
    assert s[..|d|] == d;
    assert s[|d| + 1..] == SanitizeName(originalName);
    forall i | 0 <= i < |s| ensures IsSafeNameChar(s[i]) {
      if i < |d| {
        assert s[i] == d[i];
      } else if i > |d| {
        assert s[i] == SanitizeName(originalName)[i - |d| - 1];
      }
    }
    NatToStringRoundTrip(nowMs);
  }

  // ---------------------------------------------------------------------------
  // POST /upload
  // ---------------------------------------------------------------------------

  datatype UploadReply =
    | UploadAccepted(url: string, filename: string)
    | UploadRejected(status: nat, error: string)

  /** `process.env.PUBLIC_URL || `${req.protocol}://${req.get('host')}``. */
  function PublicBase(publicUrlEnv: string, protocol: string, host: string): string {
    if publicUrlEnv != "" then publicUrlEnv else protocol + "://" + host
  }

  /** The `/upload` handler. `file` is the original name of the multipart `file`
      field when one was sent; the second component is the name written to the
      uploads directory, if any. */
  function HandleUpload(file: Option<string>, nowMs: nat, publicBase: string): (r: (UploadReply, Option<string>))
    ensures file.None? ==> r.0 == UploadRejected(400, "No file uploaded") && r.1.None?
    ensures file.Some? ==>
      && r.1 == Some(StoredFileName(nowMs, file.value))
      && r.0 == UploadAccepted(publicBase + "/uploads/" + r.1.value, file.value)
  {
    match file
    case None => (UploadRejected(400, "No file uploaded"), None)
    case Some(name) =>
      var stored := StoredFileName(nowMs, name);
      (UploadAccepted(publicBase + "/uploads/" + stored, name), Some(stored))
  }

  // ---------------------------------------------------------------------------
  // path.basename / path.extname (POSIX)
  // ---------------------------------------------------------------------------

  function StripTrailingSlashes(p: string): (r: string)
    ensures |r| <= |p| && r == p[..|r|]
    ensures r == [] || r[|r| - 1] != '/'
    decreases |p|
  {
    if |p| > 0 && p[|p| - 1] == '/' then StripTrailingSlashes(p[..|p| - 1]) else p
  }

  function AfterLastSlash(p: string): (r: string)
    ensures |r| <= |p| && r == p[|p| - |r|..]
    ensures '/' !in r
    ensures |r| < |p| ==> p[|p| - |r| - 1] == '/'
    decreases |p|
  {
    if |p| == 0 || p[|p| - 1] == '/' then ""
    else AfterLastSlash(p[..|p| - 1]) + [p[|p| - 1]]
  }

  /** `path.basename(p)`: the last segment, ignoring trailing slashes. */
  function Basename(p: string): (r: string)
    ensures '/' !in r
  {
    AfterLastSlash(StripTrailingSlashes(p))
  }

  /** The basename of `prefix + "/" + name` is `name` when `name` is a
      non-empty single segment. */
  lemma BasenameOfLastSegment(prefix: string, name: string)
    requires name != [] && '/' !in name
    ensures Basename(prefix + "/" + name) == name
  {
    var p := prefix + "/" + name;
    assert StripTrailingSlashes(p) == p by {
      assert p[|p| - 1] == name[|name| - 1];
    }
    AfterLastSlashOfSegment(prefix + "/", name);
  }

  lemma {:induction false} AfterLastSlashOfSegment(dir: string, name: string)
    requires |dir| > 0 && dir[|dir| - 1] == '/' && '/' !in name
    ensures AfterLastSlash(dir + name) == name
    decreases |name|
  {
    if |name| == 0 {
      assert dir + name == dir;
    } else {
      var init := name[..|name| - 1];
      assert (dir + name)[..|dir + name| - 1] == dir + init;
      AfterLastSlashOfSegment(dir, init);
      assert init + [name[|name| - 1]] == name;
    }
  }

  /** Index of the last occurrence of `c`. */
  function LastIndexOf(s: string, c: char): (r: Option<nat>)
    ensures r.None? ==> c !in s
    ensures r.Some? ==> r.value < |s| && s[r.value] == c && c !in s[r.value + 1..]
    decreases |s|
  {
    if |s| == 0 then None
    else if s[|s| - 1] == c then Some(|s| - 1)
    else
      var r := LastIndexOf(s[..|s| - 1], c);
      assert r.Some? ==> s[r.value + 1..] == s[..|s| - 1][r.value + 1..] + [s[|s| - 1]];
      r
  }

  /** `path.extname(b)` for a single segment `b`: from the last `.` on, unless
      that dot is the first character or `b` is `..`. */
  function ExtName(b: string): (r: string)
    ensures r == [] || (r[0] == '.' && '.' !in r[1..] && |r| < |b| && r == b[|b| - |r|..])
  {
    var i := LastIndexOf(b, '.');
    if i.None? || i.value == 0 || b == ".." then ""
    else
      assert b[i.value..][1..] == b[i.value + 1..];
      b[i.value..]
  }

  // ---------------------------------------------------------------------------
  // resolveUploadPath
  // ---------------------------------------------------------------------------

  /** A segment that names an entry of a directory rather than the directory
      itself or its parent. */
  predicate IsPlainName(b: string) {
    b != "" && b != "." && b != ".." && '/' !in b
  }

  /** The path name `resolveUploadPath` takes the basename of: the URL's
      pathname when `new URL(raw)` parses, else the raw string. `parseUrl`
      stands for the URL parser. */
  function UrlPathOf(fileUrl: Json, parseUrl: string -> Option<string>): string {
    var raw := ToStr(fileUrl);
    parseUrl(raw).GetOr(raw)
  }

  /** `path.join(dir, b)` for a single segment `b`: `.` and `..` are normalised away. */
  function JoinSegment(dir: seq<string>, b: string): seq<string> {
    if b == "." then dir
    else if b == ".." then (if |dir| == 0 then [] else dir[..|dir| - 1])
    else dir + [b]
  }

  /** `resolveUploadPath` as written: `None` stands for the empty string it
      returns when there is no usable basename. */
  function ResolveUploadPathAsWritten(fileUrl: Json, parseUrl: string -> Option<string>, uploadsDir: seq<string>): Option<seq<string>> {
    if !Truthy(fileUrl) then None
    else
      var b := Basename(UrlPathOf(fileUrl, parseUrl));
      if b == "" then None else Some(JoinSegment(uploadsDir, b))
  }

  /** A text without `/` is its own last segment. */
  lemma {:induction false} AfterLastSlashFree(p: string)
    requires '/' !in p
    ensures AfterLastSlash(p) == p
    decreases |p|
  {
    if |p| > 0 {
      var init := p[..|p| - 1];
      assert p[|p| - 1] in p;
      assert forall c :: c in init ==> c in p;
      AfterLastSlashFree(init);
      assert p == init + [p[|p| - 1]];
    }
  }

  /** A non-empty single segment is its own basename. */
  lemma SegmentIsOwnBasename(name: string)
    requires name != [] && '/' !in name
    ensures Basename(name) == name
  {
    assert name[|name| - 1] in name;
    AfterLastSlashFree(name);
  }

  lemma BasenameOfDotDot()
    ensures Basename("..") == ".."
  {
    SegmentIsOwnBasename("..");
  }

  /** A `fileUrl` of `..` that is not a parsable URL resolves to the parent of
      the uploads directory, which exists, so the order's e-mail gets that
      directory as its attachment. */
  lemma DotDotEscapesUploads(parseUrl: string -> Option<string>, uploadsDir: seq<string>)
    requires parseUrl("..").None?
    requires |uploadsDir| >= 1
    ensures ResolveUploadPathAsWritten(JStr(".."), parseUrl, uploadsDir) == Some(uploadsDir[..|uploadsDir| - 1])
  {
    BasenameOfDotDot();
    assert UrlPathOf(JStr(".."), parseUrl) == "..";
  }

  /** `resolveUploadPath` with the evident intent: only a plain file name inside
      the uploads directory is ever produced. */
  function ResolveUploadPath(fileUrl: Json, parseUrl: string -> Option<string>, uploadsDir: seq<string>): (r: Option<seq<string>>)
    ensures !Truthy(fileUrl) ==> r.None?
    ensures r.Some? ==>
      && |r.value| == |uploadsDir| + 1
      && r.value[..|uploadsDir|] == uploadsDir
      && IsPlainName(r.value[|uploadsDir|])
      && r.value[|uploadsDir|] == Basename(UrlPathOf(fileUrl, parseUrl))
    ensures Truthy(fileUrl) && IsPlainName(Basename(UrlPathOf(fileUrl, parseUrl))) ==> r.Some?
  {
    if !Truthy(fileUrl) then None
    else
      var b := Basename(UrlPathOf(fileUrl, parseUrl));
      if b == "" || b == "." || b == ".." then None
      else
        assert (uploadsDir + [b])[..|uploadsDir|] == uploadsDir;
        Some(uploadsDir + [b])
  }

  /** The corrected resolver differs from the one as written only on the
      basenames `.` and `..`. */
  lemma ResolveAgreesExceptDotNames(fileUrl: Json, parseUrl: string -> Option<string>, uploadsDir: seq<string>)
    requires var b := Basename(UrlPathOf(fileUrl, parseUrl)); b != "." && b != ".."
    ensures ResolveUploadPath(fileUrl, parseUrl, uploadsDir) == ResolveUploadPathAsWritten(fileUrl, parseUrl, uploadsDir)
  {
  }

  /** The URL `/upload` returns resolves back to the stored file, whether or not
      the URL parser accepts it, provided a parsed path ends in the stored name. */
  lemma UploadUrlResolvesToStoredFile(publicBase: string, nowMs: nat, originalName: string,
                                      parseUrl: string -> Option<string>, uploadsDir: seq<string>)
    requires var url := publicBase + "/uploads/" + StoredFileName(nowMs, originalName);
             parseUrl(url).Some? ==> exists p :: parseUrl(url).value == p + "/" + StoredFileName(nowMs, originalName)
    ensures var url := publicBase + "/uploads/" + StoredFileName(nowMs, originalName);
            ResolveUploadPath(JStr(url), parseUrl, uploadsDir) == Some(uploadsDir + [StoredFileName(nowMs, originalName)])
  {
    var stored := StoredFileName(nowMs, originalName);
    StoredNameIsPlain(nowMs, originalName);
    var url := publicBase + "/uploads/" + stored;
    assert url == (publicBase + "/uploads") + "/" + stored;
    PlainNameUrlResolves(url, publicBase + "/uploads", stored, parseUrl, uploadsDir);
  }

  /** A stored file name is a plain name: safe characters only, and it starts
      with a digit. */
  lemma StoredNameIsPlain(nowMs: nat, originalName: string)
    ensures IsPlainName(StoredFileName(nowMs, originalName))
  {
    var stored := StoredFileName(nowMs, originalName);
    StoredFileNameParts(nowMs, originalName);
    assert '/' !in stored by {
      forall i | 0 <= i < |stored| ensures stored[i] != '/' {
        assert IsSafeNameChar(stored[i]);
      }
    }
    assert IsDigit(stored[0]);
  }

  /** A URL ending in `/name`, for a plain name, resolves to that name in the
      uploads directory, whether or not it parses as a URL (provided its
      pathname, when it parses, also ends in `/name`). */
  lemma PlainNameUrlResolves(url: string, prefix: string, name: string,
                             parseUrl: string -> Option<string>, uploadsDir: seq<string>)
    requires IsPlainName(name) && url == prefix + "/" + name
    requires parseUrl(url).Some? ==> exists p :: parseUrl(url).value == p + "/" + name
    ensures ResolveUploadPath(JStr(url), parseUrl, uploadsDir) == Some(uploadsDir + [name])
  {
    if parseUrl(url).Some? {
      var p :| parseUrl(url).value == p + "/" + name;
      BasenameOfLastSegment(p, name);
    } else {
      BasenameOfLastSegment(prefix, name);
    }
  }

  // ---------------------------------------------------------------------------
  // getOrderAttachment
  // ---------------------------------------------------------------------------

  /** The extensions `getOrderAttachment` embeds inline. */
  const ImageExtensions: set<string> := {".jpg", ".jpeg", ".png", ".gif", ".webp", ".bmp"}

  datatype Attachment = Attachment(filename: string, path: seq<string>, cid: Option<string>)

  /** `path.basename` of a path given as segments. */
  function PathBasename(p: seq<string>): string {
    if |p| == 0 then "" else p[|p| - 1]
  }

  /** The lower-cased extension of a path's last segment. */
  function PathExtension(p: seq<string>): string {
    ToLower(ExtName(PathBasename(p)))
  }

  /** The attachment for a resolved local path, when that path exists:
      named `fileName` or else the path's basename, and with the content id
      `design-<id>` for an image extension. */
  function AttachmentAt(order: Order, localPath: Option<seq<string>>, existing: set<seq<string>>): Option<Attachment> {
    if localPath.None? || localPath.value !in existing then None
    else
      var p := localPath.value;
      var cid := if PathExtension(p) in ImageExtensions then Some("design-" + order.id) else None;
      Some(Attachment(OrStr(Some(order.fileName), PathBasename(p)), p, cid))
  }

  /** `getOrderAttachment` as written, on the as-written resolver: any
      existing path the resolver yields is attached, whether or not it lies in
      the uploads directory. */
  function OrderAttachmentAsWritten(order: Order, parseUrl: string -> Option<string>, uploadsDir: seq<string>,
                                    existing: set<seq<string>>): (r: Option<Attachment>)
    ensures r.Some? <==>
      var p := ResolveUploadPathAsWritten(order.fileUrl, parseUrl, uploadsDir); p.Some? && p.value in existing
    ensures r.Some? ==>
      && Some(r.value.path) == ResolveUploadPathAsWritten(order.fileUrl, parseUrl, uploadsDir)
      && (r.value.cid.Some? <==> PathExtension(r.value.path) in ImageExtensions)
      && (r.value.cid.Some? ==> r.value.cid.value == "design-" + order.id)
      && r.value.filename == OrStr(Some(order.fileName), PathBasename(r.value.path))
  {
    AttachmentAt(order, ResolveUploadPathAsWritten(order.fileUrl, parseUrl, uploadsDir), existing)
  }

  /** As written, an order whose `fileUrl` is `..` has the parent of the
      uploads directory attached to its e-mail, because that directory exists. */
  lemma DotDotAttachesParent(order: Order, parseUrl: string -> Option<string>, uploadsDir: seq<string>,
                             existing: set<seq<string>>)
    requires order.fileUrl == JStr("..") && parseUrl("..").None?
    requires |uploadsDir| >= 1 && uploadsDir[..|uploadsDir| - 1] in existing
    ensures var a := OrderAttachmentAsWritten(order, parseUrl, uploadsDir, existing);
            a.Some? && a.value.path == uploadsDir[..|uploadsDir| - 1]
  {
    DotDotEscapesUploads(parseUrl, uploadsDir);
  }

  /** `getOrderAttachment` on the corrected resolver: the uploaded design as
      an e-mail attachment when `fileUrl` names an existing file in the
      uploads directory; images get the content id `design-<id>` so the
      e-mail body can show them inline. */
  function OrderAttachment(order: Order, parseUrl: string -> Option<string>, uploadsDir: seq<string>,
                           existing: set<seq<string>>): (r: Option<Attachment>)
    ensures r.Some? <==>
      var p := ResolveUploadPath(order.fileUrl, parseUrl, uploadsDir); p.Some? && p.value in existing
    ensures r.Some? ==>
      && Some(r.value.path) == ResolveUploadPath(order.fileUrl, parseUrl, uploadsDir)
      && r.value.path[..|uploadsDir|] == uploadsDir
      && (r.value.cid.Some? <==> PathExtension(r.value.path) in ImageExtensions)
      && (r.value.cid.Some? ==> r.value.cid.value == "design-" + order.id)
      && r.value.filename == OrStr(Some(order.fileName), PathBasename(r.value.path))
  {
    AttachmentAt(order, ResolveUploadPath(order.fileUrl, parseUrl, uploadsDir), existing)
  }

  /** The two attachments differ only for a `fileUrl` whose basename is `.`
      or `..`. */
  lemma AttachmentsAgreeExceptDotNames(order: Order, parseUrl: string -> Option<string>, uploadsDir: seq<string>,
                                       existing: set<seq<string>>)
    requires var b := Basename(UrlPathOf(order.fileUrl, parseUrl)); b != "." && b != ".."
    ensures OrderAttachment(order, parseUrl, uploadsDir, existing)
            == OrderAttachmentAsWritten(order, parseUrl, uploadsDir, existing)
  {
    ResolveAgreesExceptDotNames(order.fileUrl, parseUrl, uploadsDir);
  }

  /** An uploaded image that still exists is always embedded inline. */
  lemma ImageUploadIsInline(order: Order, parseUrl: string -> Option<string>, uploadsDir: seq<string>,
                            existing: set<seq<string>>)
    requires var p := ResolveUploadPath(order.fileUrl, parseUrl, uploadsDir);
             p.Some? && p.value in existing && ToLower(ExtName(p.value[|p.value| - 1])) == ".png"
    ensures var a := OrderAttachment(order, parseUrl, uploadsDir, existing);
            a.Some? && a.value.cid == Some("design-" + order.id)
  {
  }
}
