/** The back end's upload middleware: the stored file name and its
    extension allow-list, the MIME allow-list, the size and count limits,
    and the handler that turns upload errors into replies. */
module Upload {

  import opened Wrappers
  import opened Strings

  /** The last index of `c` in `s`, if any. */
  function LastIndexOf(s: string, c: char): (r: Option<nat>)
    ensures r.None? <==> c !in s
    ensures r.Some? ==> r.value < |s| && s[r.value] == c && c !in s[r.value + 1..]
    decreases |s|
  {
    if s == [] then None
    else if s[|s| - 1] == c then Some(|s| - 1)
    else
      var r := LastIndexOf(s[..|s| - 1], c);
      assert s[..|s| - 1] + [s[|s| - 1]] == s;
      if r.Some? then
        assert s[r.value + 1..] == s[..|s| - 1][r.value + 1..] + [s[|s| - 1]];
        r
      else r
  }

  /** The path without its trailing `/` characters. */
  function DropTrailingSlashes(p: string): string
    decreases |p|
  {
    if p != [] && p[|p| - 1] == '/' then DropTrailingSlashes(p[..|p| - 1]) else p
  }

  /** The final path segment: what follows the last `/`. */
  function LastSegment(p: string): (r: string)
    ensures '/' !in r
  {
    match LastIndexOf(p, '/')
    case None => p
    case Some(i) => p[i + 1..]
  }

  /** The extension of a segment: from its last `.` on, or `''` when it
      has no dot, its only dot is leading, or it is `..`. */
  function SegmentExt(b: string): string {
    match LastIndexOf(b, '.')
    case None => ""
    case Some(d) => if d == 0 || b == ".." then "" else b[d..]
  }

  /** `path.extname` on POSIX paths. */
  function Extname(p: string): string {
    SegmentExt(LastSegment(DropTrailingSlashes(p)))
  }

  /** An extension is empty or a dot followed by dot-free, slash-free
      text, and it ends the path once trailing slashes are dropped. */
  lemma ExtnameShape(p: string)
    ensures Extname(p) == "" || (Extname(p)[0] == '.' && '.' !in Extname(p)[1..])
    ensures '/' !in Extname(p)
    ensures Extname(p) <= DropTrailingSlashes(p)[|DropTrailingSlashes(p)| - |Extname(p)|..]
  {
    var q := DropTrailingSlashes(p);
    var b := LastSegment(q);
    LastSegmentIsSuffix(q);
    SegmentExtShape(b);
    var e := SegmentExt(b);
    assert q[|q| - |e|..] == b[|b| - |e|..];
  }

  /** The final segment ends the path. */
  lemma LastSegmentIsSuffix(q: string)
    ensures |LastSegment(q)| <= |q| && LastSegment(q) == q[|q| - |LastSegment(q)|..]
  {
  }

  /** A segment's extension is empty or a dot followed by dot-free text,
      and it ends the segment. */
  lemma SegmentExtShape(b: string)
    requires '/' !in b
    ensures var e := SegmentExt(b);
      |e| <= |b| && e == b[|b| - |e|..] && '/' !in e &&
      (e == "" || (e[0] == '.' && '.' !in e[1..]))
  {
    var li := LastIndexOf(b, '.');
    if li.Some? && li.value != 0 && b != ".." {
      var e := b[li.value..];
      assert e[1..] == b[li.value + 1..];
    }
  }

  /** Without a `/`, the whole path is the segment. */
  lemma {:induction false} NoSlashSegment(p: string)
    requires '/' !in p
    ensures Extname(p) == SegmentExt(p)
  {
    if p != [] {
      assert p[|p| - 1] in p;
    }
    assert DropTrailingSlashes(p) == p;
    assert LastSegment(p) == p;
  }

  /** The last `c` of `a + [c] + b` is the one after `a` when `b` has none. */
  lemma LastIndexAfter(a: string, c: char, b: string)
    requires c !in b
    ensures LastIndexOf(a + [c] + b, c) == Some(|a|)
  {
    var s := a + [c] + b;
    var r := LastIndexOf(s, c);
    assert s[|a|] == c;
    assert r.Some?;
    assert s[|a| + 1..] == b;
  }

  /** A name `stem.ext` with a dot-free `ext` has the extension `.ext`,
      unless the stem is empty (a dot file) or the name is `..`. */
  lemma ExtnameOfStemDotExt(stem: string, ext: string)
    requires '/' !in stem && '/' !in ext && '.' !in ext
    requires stem != "" && !(stem == "." && ext == "")
    ensures Extname(stem + "." + ext) == "." + ext
  {
    var p := stem + "." + ext;
    assert '/' !in p;
    NoSlashSegment(p);
    LastIndexAfter(stem, '.', ext);
    if |p| == 2 {
      assert |stem| == 1 && ext == [];
      assert stem[0] != '.' by {
        assert stem == [stem[0]];
      }
      assert p[0] == stem[0];
    }
    assert p != "..";
    assert p[|stem|..] == "." + ext;
  }

  /** A dot file without a further dot has no extension. */
  lemma DotfileHasNoExt(name: string)
    requires '/' !in name && '.' !in name
    ensures Extname("." + name) == ""
  {
    var p := "." + name;
    assert '/' !in p;
    NoSlashSegment(p);
    LastIndexAfter("", '.', name);
    assert "" + ['.'] + name == p;
  }

  const TypeMessage: string := "Tipo de archivo no permitido"

  const AllowedExtensions: seq<string> := [".jpg", ".jpeg", ".png", ".gif", ".webp"]

  const AllowedMimes: seq<string> := ["image/jpeg", "image/png", "image/gif", "image/webp"]

  /** The `filename` callback's answer: the name, and whether it comes
      with the type error. */
  datatype NameResult = NameAccepted(filename: string) | NameRejected(message: string, filename: string)

  /** The stored name: field name, `-`, the time and random suffix, then
      the lower-cased extension of the uploaded name. */
  function StoredName(fieldname: string, originalname: string, now: nat, random: nat): string {
    fieldname + "-" + IntToString(now) + "-" + IntToString(random) + ToLower(Extname(originalname))
  }

  /** The extension check: the lower-cased extension is on the list. */
  predicate ExtensionAllowed(originalname: string) {
    ToLower(Extname(originalname)) in AllowedExtensions
  }

  /** The `filename` callback, with the clock and random draw as inputs. */
  function Filename(fieldname: string, originalname: string, now: nat, random: nat): NameResult {
    var filename := StoredName(fieldname, originalname, now, random);
    if !ExtensionAllowed(originalname) then NameRejected(TypeMessage, filename)
    else NameAccepted(filename)
  }

  lemma DigitsHaveNoSlash(n: nat)
    ensures '/' !in IntToString(n) && '.' !in IntToString(n)
  {
    var s := IntToString(n);
    assert AllDigits(s);
    forall k | 0 <= k < |s| ensures s[k] != '/' && s[k] != '.' {
      assert '0' <= s[k] <= '9';
    }
  }

  /** The name is accepted exactly when the lower-cased extension is on
      the list, whatever the case of the uploaded name; either way the
      same name is produced, starting with the field name and a dash. */
  lemma FilenameMeaning(fieldname: string, originalname: string, now: nat, random: nat)
    ensures Filename(fieldname, originalname, now, random).NameAccepted? <==>
            ToLower(Extname(originalname)) in AllowedExtensions
    ensures Filename(fieldname, originalname, now, random).NameRejected? ==>
            Filename(fieldname, originalname, now, random).message == TypeMessage
    ensures Filename(fieldname, originalname, now, random).filename ==
            StoredName(fieldname, originalname, now, random)
    ensures fieldname + "-" <= StoredName(fieldname, originalname, now, random)
  {
  }

  /** Each allowed extension is a dot and dot-free letters. */
  lemma AllowedShape(e: string)
    requires e in AllowedExtensions
    ensures |e| >= 2 && e[0] == '.' && e == "." + e[1..]
    ensures '.' !in e[1..] && '/' !in e[1..]
  {
    if e == ".jpg" {
      assert e[1..] == "jpg";
    } else if e == ".jpeg" {
      assert e[1..] == "jpeg";
    } else if e == ".png" {
      assert e[1..] == "png";
    } else if e == ".gif" {
      assert e[1..] == "gif";
    } else {
      assert e[1..] == "webp";
    }
  }

  /** An accepted upload is stored under a name whose own extension is
      the lower-cased original one, so the disk copy keeps an allowed
      image extension. */
  lemma StoredNameKeepsExtension(fieldname: string, originalname: string, now: nat, random: nat)
    requires '/' !in fieldname
    requires Filename(fieldname, originalname, now, random).NameAccepted?
    ensures Extname(StoredName(fieldname, originalname, now, random)) == ToLower(Extname(originalname))
    ensures Extname(StoredName(fieldname, originalname, now, random)) in AllowedExtensions
  {
    var ext := ToLower(Extname(originalname));
    var a := IntToString(now);
    var b := IntToString(random);
    var stem := fieldname + "-" + a + "-" + b;
    DigitsHaveNoSlash(now);
    DigitsHaveNoSlash(random);
    assert '/' !in stem;
    assert stem[|fieldname|] == '-';
    AllowedShape(ext);
    assert StoredName(fieldname, originalname, now, random) == stem + "." + ext[1..];
    ExtnameOfStemDotExt(stem, ext[1..]);
  }

  /** Only the case-folded extension matters: two names that differ in
      the case of their extension are both accepted or both refused. */
  lemma ExtensionCaseIgnored(stem: string, e1: string, e2: string)
    requires '/' !in stem && stem != ""
    requires '/' !in e1 && '.' !in e1 && '/' !in e2 && '.' !in e2
    requires e1 != "" && ToLower(e1) == ToLower(e2)
    ensures ExtensionAllowed(stem + "." + e1) <==> ExtensionAllowed(stem + "." + e2)
  {
    ExtnameOfStemDotExt(stem, e1);
    ExtnameOfStemDotExt(stem, e2);
    ToLowerConcat(".", e1);
    ToLowerConcat(".", e2);
  }

  /** A dot file without a further dot, such as `.png`, has no extension
      and is refused. */
  lemma DotfileRefused(name: string)
    requires '/' !in name && '.' !in name
    ensures Extname("." + name) == ""
    ensures !ExtensionAllowed("." + name)
  {
    DotfileHasNoExt(name);
    assert ToLower(Extname("." + name)) == "";
  }

  /** The `fileFilter` callback: accept, or refuse with the type error. */
  function FileFilter(mimetype: string): Option<string> {
    if mimetype !in AllowedMimes then Some(TypeMessage) else None
  }

  /** The MIME check passes exactly for the four image types, and its
      refusal carries the same message as the extension check's. */
  lemma FileFilterMeaning(mimetype: string, fieldname: string, originalname: string, now: nat, random: nat)
    ensures FileFilter(mimetype).None? <==>
            mimetype == "image/jpeg" || mimetype == "image/png" ||
            mimetype == "image/gif" || mimetype == "image/webp"
    ensures FileFilter(mimetype).Some? && Filename(fieldname, originalname, now, random).NameRejected? ==>
            FileFilter(mimetype).value == Filename(fieldname, originalname, now, random).message
  {
  }

  /** Five megabytes per file. */
  const MaxFileSize: nat := 5 * 1024 * 1024

  /** Ten files per request. */
  const MaxFiles: nat := 10

  /** The error codes the limits raise. */
  datatype LimitCode = LimitFileSize | LimitFileCount

  function CodeName(c: LimitCode): string {
    match c
    case LimitFileSize => "LIMIT_FILE_SIZE"
    case LimitFileCount => "LIMIT_FILE_COUNT"
  }

  /** The limits an upload with these file sizes breaks. */
  function ViolatedLimits(sizes: seq<nat>): (r: set<LimitCode>)
    ensures LimitFileCount in r <==> |sizes| > MaxFiles
    ensures LimitFileSize in r <==> exists k :: 0 <= k < |sizes| && sizes[k] > MaxFileSize
    ensures r == {} <==> |sizes| <= 10 && forall k :: 0 <= k < |sizes| ==> sizes[k] <= 5242880
  {
    (if |sizes| > MaxFiles then {LimitFileCount} else {}) +
    (if exists k :: 0 <= k < |sizes| && sizes[k] > MaxFileSize then {LimitFileSize} else {})
  }

  /** An error reaching the handler: whether it is a multer error, its
      code (empty when it has none) and its message. */
  datatype UploadError = UploadError(isMulter: bool, code: string, message: string)

  /** What the handler does to the exchange. */
  datatype Action = Respond(status: nat, message: string) | CallNext(err: UploadError)

  const SizeMessage: string := "El archivo es demasiado grande. Máximo 5MB"
  const CountMessage: string := "Demasiados archivos. Máximo 10"
  const ImagesOnlyMessage: string := "Solo se permiten archivos de imagen (jpg, png, gif, webp)"

  /** The handler's actions in order. */
  function HandlerActions(err: UploadError): seq<Action> {
    (if err.isMulter && err.code == "LIMIT_FILE_SIZE" then [Respond(400, SizeMessage)] else []) +
    (if err.isMulter && err.code == "LIMIT_FILE_COUNT" then [Respond(400, CountMessage)] else []) +
    (if err.message == TypeMessage then [Respond(400, ImagesOnlyMessage)] else []) +
    [CallNext(err)]
  }

  function Responses(actions: seq<Action>): seq<Action> {
    if actions == [] then []
    else (if actions[0].Respond? then [actions[0]] else []) + Responses(actions[1..])
  }

  lemma {:induction false} ResponsesConcat(a: seq<Action>, b: seq<Action>)
    ensures Responses(a + b) == Responses(a) + Responses(b)
    decreases |a|
  {
    if a == [] {
      assert a + b == b;
    } else {
      var ab := a + b;
      assert ab[0] == a[0] && ab[1..] == a[1..] + b;
      ResponsesConcat(a[1..], b);
      var head := if a[0].Respond? then [a[0]] else [];
      assert Responses(ab) == head + Responses(a[1..] + b);
      assert Responses(a) == head + Responses(a[1..]);
    }
  }

  /** The handler always ends by passing the error on, exactly once; it
      replies at most twice, and twice only for a limit error that also
      carries the type message. Every reply is a 400. */
  lemma HandlerMeaning(err: UploadError)
    ensures HandlerActions(err)[|HandlerActions(err)| - 1] == CallNext(err)
    ensures forall k :: 0 <= k < |HandlerActions(err)| - 1 ==> HandlerActions(err)[k].Respond?
    ensures forall k :: 0 <= k < |HandlerActions(err)| - 1 ==> HandlerActions(err)[k].status == 400
    ensures |Responses(HandlerActions(err))| == |HandlerActions(err)| - 1
    ensures |Responses(HandlerActions(err))| <= 2
    ensures |Responses(HandlerActions(err))| == 2 <==>
            err.isMulter && (err.code == "LIMIT_FILE_SIZE" || err.code == "LIMIT_FILE_COUNT") &&
            err.message == TypeMessage
  {
    var a := if err.isMulter && err.code == "LIMIT_FILE_SIZE" then [Respond(400, SizeMessage)] else [];
    var b := if err.isMulter && err.code == "LIMIT_FILE_COUNT" then [Respond(400, CountMessage)] else [];
    var c := if err.message == TypeMessage then [Respond(400, ImagesOnlyMessage)] else [];
    var n: seq<Action> := [CallNext(err)];
    ResponsesConcat(a + b + c, n);
    ResponsesConcat(a + b, c);
    ResponsesConcat(a, b);
  }

  /** Each broken limit, raised as a multer error, is answered with the
      message naming that limit. */
  lemma LimitReplies(sizes: seq<nat>, code: LimitCode, message: string)
    requires code in ViolatedLimits(sizes)
    requires message != TypeMessage
    ensures HandlerActions(UploadError(true, CodeName(code), message)) ==
      [Respond(400, if code == LimitFileSize then SizeMessage else CountMessage),
       CallNext(UploadError(true, CodeName(code), message))]
  {
  }

  /** Either allow-list's refusal reaches the handler as a plain error
      with the type message and gets the images-only reply. */
  lemma RejectionReplies(mimetype: string, fieldname: string, originalname: string, now: nat, random: nat)
    ensures FileFilter(mimetype).Some? ==>
      HandlerActions(UploadError(false, "", FileFilter(mimetype).value)) ==
      [Respond(400, ImagesOnlyMessage), CallNext(UploadError(false, "", TypeMessage))]
    ensures Filename(fieldname, originalname, now, random).NameRejected? ==>
      HandlerActions(UploadError(false, "", Filename(fieldname, originalname, now, random).message)) ==
      [Respond(400, ImagesOnlyMessage), CallNext(UploadError(false, "", TypeMessage))]
  {
  }

  /** The exchange the handler writes to, as the list of what was done. */
  class Exchange {
    var log: seq<Action>

    constructor()
      ensures log == []
    {
      log := [];
    }

    /** `handleUploadError`. */
    method HandleUploadError(err: UploadError)
      modifies this
      ensures log == old(log) + HandlerActions(err)
    {
      if err.isMulter {
        if err.code == "LIMIT_FILE_SIZE" {
          log := log + [Respond(400, SizeMessage)];
        }
        if err.code == "LIMIT_FILE_COUNT" {
          log := log + [Respond(400, CountMessage)];
        }
      }
      if err.message == TypeMessage {
        log := log + [Respond(400, ImagesOnlyMessage)];
      }
      log := log + [CallNext(err)];
    }
  }
}
