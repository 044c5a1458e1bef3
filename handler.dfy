/**
 * The request router of internal/handler/handler.go over an abstract file system.
 * The decision a request gets is the pure function `Route`; `Handle` carries it
 * out on a response writer.
 */
module Handler {
  import opened Wrappers
  import opened Paths
  import GoQuote
  import Http
  import Document

  // ---------------------------------------------------------------------------
  // The state the router reads

  /** The served directory `Init` receives: `filepath.Abs` of the command-line
      argument, so absolute and clean. */
  type Root = r: string | IsAbs(r) && Clean(r) == r witness "/"

  /** The package-level state `Init` sets, the working directory the containment
      test would consult for relative paths, and what `filepath.Glob` returns for
      the readme pattern joined to a directory path that itself holds pattern
      syntax (see `ReadmeGlob`), which this model does not evaluate. */
  datatype Config = Config(root: Root, mdCompile: bool, cwd: Cwd,
                           patternGlob: string -> Result<seq<string>>)

  datatype Request = Request(httpMethod: string, urlPath: string)

  /** An entry `os.ReadDir` lists. */
  datatype DirEntry = DirEntry(name: string, isDir: bool)

  /** What the file system holds at a path: a file (its contents, or the error
      reading it gives), a directory (its entries, in the order `os.ReadDir` lists
      them, which is sorted by name), or something `os.Stat` fails on for a reason
      other than absence. */
  datatype Node =
    | File(data: Result<string>)
    | Dir(entries: seq<DirEntry>)
    | Unstatable(reason: string)

  /** The file system, by cleaned absolute path; a path that is not a key does not
      exist (`os.IsNotExist`). A path that runs through a regular file, such as
      "/f.txt/x", fails `os.Stat` with "not a directory" and is `Unstatable`. */
  type FileSystem = map<string, Node>

  /** `strings.HasSuffix`. */
  predicate HasSuffix(s: string, suffix: string) {
    |suffix| <= |s| && s[|s| - |suffix|..] == suffix
  }

  /** `os.ReadFile`. */
  function ReadFile(fs: FileSystem, p: string): Result<string> {
    if p !in fs then Err("open " + p + ": no such file or directory")
    else match fs[p]
      case File(data) => data
      case Dir(_) => Err("read " + p + ": is a directory")
      case Unstatable(reason) => Err(reason)
  }

  /** The path a request names: `filepath.Join(absPath, r.URL.Path)`. */
  function ReqPath(root: Root, url: string): string {
    JoinElems([root, url])
  }

  // ---------------------------------------------------------------------------
  // The decision

  /** Why a request is answered with an error; `Message` is the error's text. */
  datatype Failure =
    | NotFound(url: string)
    | StatFailed(url: string, reason: string)
    | IndexIsDirectory(url: string)
    | ReadFailed(file: string, error: string)
    | RenderFailed(file: string, error: string)
    | ListingFailed(url: string, error: string)

  /** The text `fmt.Errorf` gives each failure; `errors.Join` puts the wrapped
      error on a line of its own. */
  function Message(f: Failure): string {
    match f
    case NotFound(url) => "file " + GoQuote.Quote(url) + " does not exist"
    case StatFailed(url, reason) => "failed to check if file " + GoQuote.Quote(url) + " exists: " + reason
    case IndexIsDirectory(url) => "path " + GoQuote.Quote(url) + " does not exist"
    case ReadFailed(file, e) => "failed to read Markdown file " + GoQuote.Quote(file) + "\n" + e
    case RenderFailed(file, e) => "failed to serve compiled Markdown file " + GoQuote.Quote(file) + "\n" + e
    case ListingFailed(url, e) => "failed to serve directory listing for " + GoQuote.Quote(url) + "\n" + e
  }

  /** What a request comes to. */
  datatype Outcome =
    | Fail(failure: Failure)                             // httpError(w, Message(failure), 500)
    | ServeIndex(path: string)                           // http.ServeFile of an index.html
    | Listing(title: string, dirPath: string, html: string)
                                                         // md.WriteDoc of a directory listing
    | Markdown(title: string, source: string, dirPath: string, file: string, named: string)
                                                         // md.WriteMarkdown of `file`, which
                                                         // error messages call `named`
    | ServeStatic                                        // fileServer.ServeHTTP
    | Nothing                                            // return without writing

  /** `handleFileExistence`: the error, if any. */
  function Existence(cfg: Config, url: string, reqPath: string, fs: FileSystem): Option<Failure> {
    if reqPath !in fs then Some(NotFound(url))
    else if fs[reqPath].Unstatable? then Some(StatFailed(url, fs[reqPath].reason))
    else if !IsIn(cfg.cwd, reqPath, cfg.root) then Some(NotFound(url))
    else None
  }

  function Lower(c: char): char {
    if 'A' <= c <= 'Z' then (c as int + 32) as char else c
  }

  /** A name the pattern "[rR][eE][aA][dD][mM][eE].[mM][dD]" matches. */
  predicate IsReadmeName(name: string) {
    |name| == 9 && forall i :: 0 <= i < 9 ==> Lower(name[i]) == "readme.md"[i]
  }

  /** The names of the entries the readme pattern matches, in the directory's
      order (which is the sorted order `filepath.Glob` returns). */
  function ReadmeNames(entries: seq<DirEntry>): (names: seq<string>)
    ensures forall i :: 0 <= i < |names| ==> IsReadmeName(names[i])
    ensures forall j :: 0 <= j < |entries| && IsReadmeName(entries[j].name) ==> entries[j].name in names
    ensures |names| == 0 <==> forall j :: 0 <= j < |entries| ==> !IsReadmeName(entries[j].name)
  {
    if entries == [] then []
    else (if IsReadmeName(entries[0].name) then [entries[0].name] else []) + ReadmeNames(entries[1..])
  }

  /** The characters `filepath.Glob` reads as pattern syntax on Unix. */
  predicate HasMeta(p: string) {
    '*' in p || '?' in p || '[' in p || '\\' in p
  }

  function ReadmePaths(dir: string, names: seq<string>): (paths: seq<string>)
    ensures |paths| == |names|
    ensures forall i :: 0 <= i < |names| ==> paths[i] == JoinElems([dir, names[i]])
  {
    seq(|names|, i requires 0 <= i < |names| => JoinElems([dir, names[i]]))
  }

  /** `filepath.Glob` of the readme pattern joined to the directory `dir`. When
      `dir` holds no pattern syntax, Glob reads that directory and joins each
      matching name to it; otherwise it expands `dir` itself as a pattern, which
      is left to `cfg.patternGlob`. */
  function ReadmeGlob(cfg: Config, dir: string, entries: seq<DirEntry>): Result<seq<string>> {
    if HasMeta(dir) then cfg.patternGlob(dir) else Ok(ReadmePaths(dir, ReadmeNames(entries)))
  }

  /** The condition under which `handleDirectory` serves a readme: Glob succeeded
      and matched something. */
  predicate HasReadme(cfg: Config, dir: string, entries: seq<DirEntry>) {
    var m := ReadmeGlob(cfg, dir, entries);
    m.Ok? && |m.value| != 0
  }

  /** `handleDirectory`: `None` when the path is not a directory (the handler goes
      on), otherwise what the directory is served as. */
  function DirectoryStep(cfg: Config, url: string, reqPath: string, fs: FileSystem): Option<Outcome>
    requires reqPath in fs
  {
    match fs[reqPath]
    case Dir(entries) =>
      var index := JoinElems([reqPath, "index.html"]);
      if index in fs && !fs[index].Unstatable? then
        if fs[index].Dir? then Some(Fail(IndexIsDirectory(url)))
        else Some(ServeIndex(index))
      else
        if cfg.mdCompile && HasReadme(cfg, reqPath, entries) then
          var readme := ReadmeGlob(cfg, reqPath, entries).value[0];
          match ReadFile(fs, readme)
          case Err(e) => Some(Fail(ReadFailed(readme, e)))
          case Ok(content) => Some(Markdown(url, content, url, readme, readme))
        else
          Some(Listing(url, url, ListingHtml(url, entries)))
    case _ => None
  }

  /** `handleMarkdown`: a URL ending in ".md" is read and rendered; any other is
      answered with nothing at all. */
  function MarkdownStep(url: string, reqPath: string, fs: FileSystem): Outcome {
    if HasSuffix(url, ".md") then
      match ReadFile(fs, reqPath)
      case Err(e) => Fail(ReadFailed(url, e))
      case Ok(content) => Markdown(url, content, url, reqPath, url)
    else Nothing
  }

  /** `Handle`'s decision: the existence check, then the directory step, then the
      Markdown step or the file server. */
  function Route(cfg: Config, req: Request, fs: FileSystem): Outcome {
    var url := req.urlPath;
    var reqPath := ReqPath(cfg.root, url);
    match Existence(cfg, url, reqPath, fs)
    case Some(f) => Fail(f)
    case None =>
      match DirectoryStep(cfg, url, reqPath, fs)
      case Some(o) => o
      case None => if cfg.mdCompile then MarkdownStep(url, reqPath, fs) else ServeStatic
  }

  // ---------------------------------------------------------------------------
  // The directory listing

  /** How an entry is shown: directories with a trailing "/". */
  function Display(e: DirEntry): string {
    if e.isDir then e.name + "/" else e.name
  }

  /** The link to an entry: `path.Join("/", url, name)`. */
  function EntryTarget(url: string, name: string): string {
    JoinElems(["/", url, name])
  }

  function EntryLink(url: string, e: DirEntry): string {
    "<a href=" + GoQuote.Quote(EntryTarget(url, e.name)) + ">" + Display(e) + "</a><br>"
  }

  /** The link to the parent directory, left out at "/". */
  function ParentLink(url: string): string {
    if url != "/" then "<a href=" + GoQuote.Quote(DirOf(url)) + ">../</a><br>" else ""
  }

  function Links(url: string, entries: seq<DirEntry>): (links: seq<string>)
    ensures |links| == |entries|
    ensures forall i :: 0 <= i < |entries| ==> links[i] == EntryLink(url, entries[i])
  {
    seq(|entries|, i requires 0 <= i < |entries| => EntryLink(url, entries[i]))
  }

  function ListingOpen(url: string): string {
    "<h1>Directory listing for " + url + "</h1>" + "<ul>"
  }

  /** `buildDirectoryListingHTML`'s page body. */
  function ListingHtml(url: string, entries: seq<DirEntry>): string {
    ListingOpen(url) + ParentLink(url) + Document.Concat(Links(url, entries)) + "</ul>"
  }

  /** One round of the loop of `buildDirectoryListingHTML`: a directory's name
      is shown with a trailing slash. */
  method BuildLink(url: string, e: DirEntry) returns (link: string)
    ensures link == EntryLink(url, e)
  {
    var display := e.name;
    if e.isDir {
      display := display + "/";
    }
    link := "<a href=" + GoQuote.Quote(JoinElems(["/", url, e.name])) + ">" + display + "</a><br>";
  }

  /** The heading, the list's opening tag and the parent link, as
      `buildDirectoryListingHTML` writes them before its loop. */
  method BuildListingHead(url: string) returns (sb: string)
    ensures sb == ListingOpen(url) + ParentLink(url)
  {
    sb := "<h1>Directory listing for " + url + "</h1>";
    sb := sb + "<ul>";
    if url != "/" {
      sb := sb + ("<a href=" + GoQuote.Quote(DirOf(url)) + ">../</a><br>");
    } else {
      Document.AppendEmpty(sb);
    }
  }

  /** The string builder loop of `buildDirectoryListingHTML`. */
  method BuildListing(url: string, entries: seq<DirEntry>) returns (html: string)
    ensures html == ListingHtml(url, entries)
  {
    var sb := BuildListingHead(url);
    ghost var links := Links(url, entries);
    ghost var before := sb;
    assert links[..0] == [];
    Document.AppendEmpty(before);
    var i := 0;
    while i < |entries|
      invariant 0 <= i <= |entries|
      invariant sb == before + Document.Concat(links[..i])
    {
      var link := BuildLink(url, entries[i]);
      Document.ConcatExtend(before, links, i, sb, link);
      sb := sb + link;
      i := i + 1;
    }
    assert links[..|entries|] == links;
    sb := sb + "</ul>";
    html := sb;
  }

  // ---------------------------------------------------------------------------
  // Carrying out the decision

  /** `Handle`: routes the request and writes the response. A page gets its headers;
      a GET also gets status 200, unless a status went out before, and the page, or
      `http.Error`'s headers when the connection has failed. */
  method Handle(cfg: Config, w: Http.ResponseWriter, req: Request, fs: FileSystem, render: string -> string)
    modifies w
    ensures w.failure == old(w.failure)
    ensures var o := Route(cfg, req, fs);
      match o
      case Fail(f) =>
        w.header == Http.ErrorHeaders(old(w.header)) &&
        w.status == (if old(w.status) == 0 then Http.StatusInternalServerError else old(w.status)) &&
        w.body == (if w.failure.None? then old(w.body) + Message(f) + "\n" else old(w.body)) &&
        w.handoff == old(w.handoff)
      case ServeIndex(p) =>
        w.handoff == Some(Http.ServeFile(p)) &&
        w.header == old(w.header) && w.status == old(w.status) && w.body == old(w.body)
      case ServeStatic =>
        w.handoff == Some(Http.FileServer(req.urlPath)) &&
        w.header == old(w.header) && w.status == old(w.status) && w.body == old(w.body)
      case Nothing =>
        w.handoff == old(w.handoff) &&
        w.header == old(w.header) && w.status == old(w.status) && w.body == old(w.body)
      case Listing(title, dirPath, html) =>
        w.handoff == old(w.handoff) &&
        (req.httpMethod == Http.MethodHead ==>
           w.status == old(w.status) && w.body == old(w.body) &&
           w.header == Document.DocHeaders(old(w.header), html)) &&
        (req.httpMethod != Http.MethodHead ==>
           w.status == if old(w.status) == 0 then Http.StatusOK else old(w.status)) &&
        (req.httpMethod != Http.MethodHead && w.failure.None? ==>
           w.header == Document.DocHeaders(old(w.header), html) &&
           w.body == old(w.body) + Document.DocText(title, html, dirPath, [])) &&
        (req.httpMethod != Http.MethodHead && w.failure.Some? ==>
           w.header == Http.ErrorHeaders(Document.DocHeaders(old(w.header), html)) && w.body == old(w.body))
      case Markdown(title, source, dirPath, _, _) =>
        w.handoff == old(w.handoff) &&
        (req.httpMethod == Http.MethodHead ==>
           w.status == old(w.status) && w.body == old(w.body) &&
           w.header == Document.DocHeaders(old(w.header), render(source))) &&
        (req.httpMethod != Http.MethodHead ==>
           w.status == if old(w.status) == 0 then Http.StatusOK else old(w.status)) &&
        (req.httpMethod != Http.MethodHead && w.failure.None? ==>
           w.header == Document.DocHeaders(old(w.header), render(source)) &&
           w.body == old(w.body) + Document.DocText(title, render(source), dirPath, Document.MarkdownLibs)) &&
        (req.httpMethod != Http.MethodHead && w.failure.Some? ==>
           w.header == Http.ErrorHeaders(Document.DocHeaders(old(w.header), render(source))) && w.body == old(w.body))
  {
    var o := Route(cfg, req, fs);
    match o
    case Fail(f) =>
      Report(w, f);
    case ServeIndex(p) =>
      w.HandOff(Http.ServeFile(p));
    case ServeStatic =>
      w.HandOff(Http.FileServer(req.urlPath));
    case Nothing =>
    case Listing(title, dirPath, _) =>
      var html := BuildListing(req.urlPath, DirEntriesOf(fs, ReqPath(cfg.root, req.urlPath)));
      assert html == o.html by { ListingOfRoute(cfg, req, fs); }
      ServeListing(w, req.httpMethod, title, dirPath, html, req.urlPath);
    case Markdown(title, source, dirPath, _, named) =>
      ServeMarkdown(w, req.httpMethod, title, source, dirPath, named, render);
  }

  /** `httpError`: the failure's text as a 500 response. */
  method Report(w: Http.ResponseWriter, f: Failure)
    modifies w
    ensures w.header == Http.ErrorHeaders(old(w.header))
    ensures w.status == if old(w.status) == 0 then Http.StatusInternalServerError else old(w.status)
    ensures w.body == if w.failure.None? then old(w.body) + Message(f) + "\n" else old(w.body)
    ensures w.failure == old(w.failure) && w.handoff == old(w.handoff)
  {
    w.Error(Message(f));
  }

  /** The end of `buildDirectoryListingHTML`: the listing is written as a page, and
      a failed write is reported for the URL path. */
  method ServeListing(w: Http.ResponseWriter, httpMethod: string, title: string, dirPath: string,
                      html: string, url: string)
    modifies w
    ensures w.failure == old(w.failure) && w.handoff == old(w.handoff)
    ensures
      (httpMethod == Http.MethodHead ==>
         w.status == old(w.status) && w.body == old(w.body) &&
         w.header == Document.DocHeaders(old(w.header), html)) &&
      (httpMethod != Http.MethodHead ==>
         w.status == if old(w.status) == 0 then Http.StatusOK else old(w.status)) &&
      (httpMethod != Http.MethodHead && w.failure.None? ==>
         w.header == Document.DocHeaders(old(w.header), html) &&
         w.body == old(w.body) + Document.DocText(title, html, dirPath, [])) &&
      (httpMethod != Http.MethodHead && w.failure.Some? ==>
         w.header == Http.ErrorHeaders(Document.DocHeaders(old(w.header), html)) && w.body == old(w.body))
  {
    var err := Document.WriteDoc(w, httpMethod, title, dirPath, html, []);
    if err.Some? {
      Report(w, ListingFailed(url, err.value));
    }
  }

  /** The end of `handleMarkdown` and of the readme case of `handleDirectory`: the
      rendered source is written as a page, and a failed write is reported for the
      file as `named`. */
  method ServeMarkdown(w: Http.ResponseWriter, httpMethod: string, title: string, source: string,
                       dirPath: string, named: string, render: string -> string)
    modifies w
    ensures w.failure == old(w.failure) && w.handoff == old(w.handoff)
    ensures
      (httpMethod == Http.MethodHead ==>
         w.status == old(w.status) && w.body == old(w.body) &&
         w.header == Document.DocHeaders(old(w.header), render(source))) &&
      (httpMethod != Http.MethodHead ==>
         w.status == if old(w.status) == 0 then Http.StatusOK else old(w.status)) &&
      (httpMethod != Http.MethodHead && w.failure.None? ==>
         w.header == Document.DocHeaders(old(w.header), render(source)) &&
         w.body == old(w.body) + Document.DocText(title, render(source), dirPath, Document.MarkdownLibs)) &&
      (httpMethod != Http.MethodHead && w.failure.Some? ==>
         w.header == Http.ErrorHeaders(Document.DocHeaders(old(w.header), render(source))) && w.body == old(w.body))
  {
    var err := Document.WriteMarkdown(w, httpMethod, title, source, dirPath, render);
    if err.Some? {
      Report(w, RenderFailed(named, err.value));
    }
  }

  /** The entries of a directory, none for anything else. */
  function DirEntriesOf(fs: FileSystem, p: string): seq<DirEntry> {
    if p in fs && fs[p].Dir? then fs[p].entries else []
  }

  /** A listing is always of the requested directory's entries. */
  lemma ListingOfRoute(cfg: Config, req: Request, fs: FileSystem)
    requires Route(cfg, req, fs).Listing?
    ensures Route(cfg, req, fs).html == ListingHtml(req.urlPath, DirEntriesOf(fs, ReqPath(cfg.root, req.urlPath)))
  {
    ListingIff(cfg, req, fs);
  }

  // ---------------------------------------------------------------------------
  // What the decision guarantees

  /** The requested path is absolute, and its elements are those of the URL path
      resolved below the root's. */
  lemma ReqPathElements(root: Root, url: string)
    ensures IsAbs(ReqPath(root, url))
    ensures Elements(ReqPath(root, url)) == Resolve(true, Elements(root), Split(url))
  {
    var joined := root + "/" + url;
    assert Join([root, url]) == joined by {
      assert [root, url][1..] == [url];
    }
    assert IsAbs(joined);
    CleanRooted(joined);
    ElementsOfClean(joined);
    ElementsAppend(root, url);
  }

  /** A name the readme pattern matches stays inside the directory it is joined to. */
  lemma ReadmeIsPlain(name: string)
    requires IsReadmeName(name)
    ensures PlainName(name)
  {
    assert Lower(name[0]) == 'r';
    forall i | 0 <= i < |name|
      ensures name[i] != '/'
    {
      assert Lower(name[i]) == "readme.md"[i];
    }
  }

  /** A request that is not refused names an existing path inside the root. */
  lemma RouteConfined(cfg: Config, req: Request, fs: FileSystem)
    requires !Route(cfg, req, fs).Fail?
    ensures var p := ReqPath(cfg.root, req.urlPath);
      p in fs && !fs[p].Unstatable? && IsIn(cfg.cwd, p, cfg.root)
  {
  }

  /** An index file served is a file in the requested directory, inside the root. */
  lemma IndexConfined(cfg: Config, req: Request, fs: FileSystem)
    requires Route(cfg, req, fs).ServeIndex?
    ensures var o := Route(cfg, req, fs);
      IsIn(cfg.cwd, o.path, cfg.root) && o.path in fs && fs[o.path].File?
  {
    var p := ReqPath(cfg.root, req.urlPath);
    assert Existence(cfg, req.urlPath, p, fs).None? && fs[p].Dir?;
    ReqPathElements(cfg.root, req.urlPath);
    IndexIsPlain();
    IsInChild(cfg.cwd, p, cfg.root, "index.html");
  }

  lemma IndexIsPlain()
    ensures PlainName("index.html")
  {
    assert "index.html"[0] == 'i';
  }

  /** A Markdown file rendered is a file, and the source rendered is its contents;
      it lies inside the root unless it was found by expanding a directory path
      that holds pattern syntax. */
  lemma MarkdownConfined(cfg: Config, req: Request, fs: FileSystem)
    requires Route(cfg, req, fs).Markdown?
    ensures var o := Route(cfg, req, fs);
      o.file in fs && fs[o.file].File? && o.source == fs[o.file].data.value
    ensures var o := Route(cfg, req, fs);
      var p := ReqPath(cfg.root, req.urlPath);
      (fs[p].File? || !HasMeta(p)) ==> IsIn(cfg.cwd, o.file, cfg.root)
  {
    var p := ReqPath(cfg.root, req.urlPath);
    ReqPathElements(cfg.root, req.urlPath);
    if fs[p].Dir? && !HasMeta(p) {
      var names := ReadmeNames(fs[p].entries);
      assert ReadmeGlob(cfg, p, fs[p].entries).value[0] == JoinElems([p, names[0]]);
      ReadmeIsPlain(names[0]);
      IsInChild(cfg.cwd, p, cfg.root, names[0]);
    }
  }

  /** "does not exist" is answered exactly for a path that is missing, or that
      exists but lies outside the root: the two cannot be told apart. */
  lemma NotFoundIff(cfg: Config, req: Request, fs: FileSystem)
    ensures var p := ReqPath(cfg.root, req.urlPath);
      Route(cfg, req, fs) == Fail(NotFound(req.urlPath)) <==>
        p !in fs || (!fs[p].Unstatable? && !IsIn(cfg.cwd, p, cfg.root))
  {
  }

  /** The text of a "does not exist" error is that of no other error, and names
      the URL path it was given, so the response tells the client that much and no
      more. */
  lemma NotFoundMessageIff(f: Failure, url: string)
    ensures Message(f) == Message(NotFound(url)) <==> f == NotFound(url)
  {
    var m := Message(NotFound(url));
    assert m[0] == 'f' && m[1] == 'i';
    if f.NotFound? && Message(f) == m {
      QuoteInMessage(f.url, url);
    }
  }

  lemma QuoteInMessage(u: string, v: string)
    requires Message(NotFound(u)) == Message(NotFound(v))
    ensures u == v
  {
    var a := GoQuote.Quote(u);
    var b := GoQuote.Quote(v);
    var m := Message(NotFound(u));
    assert m == "file " + a + " does not exist";
    assert m == "file " + b + " does not exist";
    assert |a| == |b|;
    assert a == m[5..5 + |a|];
    assert b == m[5..5 + |b|];
    GoQuote.UnquoteQuote(u);
    GoQuote.UnquoteQuote(v);
  }

  /** A path that cannot be examined is reported with the reason before its
      containment is checked, so the reason is disclosed for paths outside the root
      too. */
  lemma StatErrorBeforeContainment(cfg: Config, req: Request, fs: FileSystem)
    requires var p := ReqPath(cfg.root, req.urlPath); p in fs && fs[p].Unstatable?
    ensures var p := ReqPath(cfg.root, req.urlPath);
      Route(cfg, req, fs) ==
        Fail(StatFailed(req.urlPath, fs[p].reason))
  {
  }

  /** The file server gets a request exactly when Markdown compilation is off and
      the path is a file inside the root. */
  lemma ServeStaticIff(cfg: Config, req: Request, fs: FileSystem)
    ensures var p := ReqPath(cfg.root, req.urlPath);
      Route(cfg, req, fs) == ServeStatic <==>
        !cfg.mdCompile && p in fs && fs[p].File? && IsIn(cfg.cwd, p, cfg.root)
  {
  }

  /** With Markdown compilation on, the handler writes nothing for a file inside the
      root whose URL does not end in ".md", and only for such a file (net/http then
      sends an empty 200). */
  lemma NothingIff(cfg: Config, req: Request, fs: FileSystem)
    ensures var p := ReqPath(cfg.root, req.urlPath);
      Route(cfg, req, fs) == Nothing <==>
        cfg.mdCompile && p in fs && fs[p].File? && IsIn(cfg.cwd, p, cfg.root) &&
        !HasSuffix(req.urlPath, ".md")
  {
  }

  /** A directory's "index.html" is served exactly when it is a file; a directory
      of that name is refused. */
  lemma IndexIff(cfg: Config, req: Request, fs: FileSystem)
    ensures var p := ReqPath(cfg.root, req.urlPath);
      var index := JoinElems([p, "index.html"]);
      Route(cfg, req, fs) == ServeIndex(index) <==>
        p in fs && fs[p].Dir? && IsIn(cfg.cwd, p, cfg.root) && index in fs && fs[index].File?
    ensures var p := ReqPath(cfg.root, req.urlPath);
      var index := JoinElems([p, "index.html"]);
      p in fs && fs[p].Dir? && IsIn(cfg.cwd, p, cfg.root) && index in fs && fs[index].Dir? ==>
        Route(cfg, req, fs) == Fail(IndexIsDirectory(req.urlPath))
  {
  }

  /** A directory inside the root without a usable index is listed exactly when
      Markdown compilation is off or Glob finds no readme (for a path without
      pattern syntax: no entry matches the readme pattern); the listing is of its
      own entries, titled with the URL path. */
  lemma ListingIff(cfg: Config, req: Request, fs: FileSystem)
    ensures var p := ReqPath(cfg.root, req.urlPath);
      var index := JoinElems([p, "index.html"]);
      Route(cfg, req, fs).Listing? <==>
        p in fs && fs[p].Dir? && IsIn(cfg.cwd, p, cfg.root) &&
        !(index in fs && !fs[index].Unstatable?) &&
        (!cfg.mdCompile || !HasReadme(cfg, p, fs[p].entries))
    ensures var p := ReqPath(cfg.root, req.urlPath);
      p in fs && fs[p].Dir? && !HasMeta(p) ==>
        (HasReadme(cfg, p, fs[p].entries) <==>
         exists j :: 0 <= j < |fs[p].entries| && IsReadmeName(fs[p].entries[j].name))
    ensures var o := Route(cfg, req, fs);
      o.Listing? ==>
        o.title == req.urlPath && o.dirPath == req.urlPath &&
        o.html == ListingHtml(req.urlPath, fs[ReqPath(cfg.root, req.urlPath)].entries)
  {
  }

  /** With Markdown compilation on, a directory without a usable index is rendered
      from its first readme, and a file is rendered when its URL ends in ".md";
      a rendering is always of the URL path, titled with it. */
  lemma MarkdownIff(cfg: Config, req: Request, fs: FileSystem)
    ensures var p := ReqPath(cfg.root, req.urlPath);
      var index := JoinElems([p, "index.html"]);
      Route(cfg, req, fs).Markdown? <==>
        cfg.mdCompile && p in fs && IsIn(cfg.cwd, p, cfg.root) &&
        ((fs[p].Dir? && !(index in fs && !fs[index].Unstatable?) &&
          HasReadme(cfg, p, fs[p].entries) &&
          ReadFile(fs, ReadmeGlob(cfg, p, fs[p].entries).value[0]).Ok?) ||
         (fs[p].File? && HasSuffix(req.urlPath, ".md") && fs[p].data.Ok?))
    ensures var o := Route(cfg, req, fs);
      o.Markdown? ==> o.title == req.urlPath && o.dirPath == req.urlPath
    ensures var o := Route(cfg, req, fs);
      var p := ReqPath(cfg.root, req.urlPath);
      o.Markdown? && fs[p].File? ==> o.file == p && o.named == req.urlPath
    ensures var o := Route(cfg, req, fs);
      var p := ReqPath(cfg.root, req.urlPath);
      o.Markdown? && fs[p].Dir? ==>
        o.file == ReadmeGlob(cfg, p, fs[p].entries).value[0] && o.named == o.file &&
        (!HasMeta(p) ==> o.file == JoinElems([p, ReadmeNames(fs[p].entries)[0]]))
  {
  }

  /** The readmes of a directory listed in two parts are those of the first part
      followed by those of the second: `ReadmeNames` keeps the directory's order. */
  lemma {:induction false} ReadmeNamesAppend(a: seq<DirEntry>, b: seq<DirEntry>)
    ensures ReadmeNames(a + b) == ReadmeNames(a) + ReadmeNames(b)
  {
    if a == [] {
      assert a + b == b;
    } else {
      assert (a + b)[1..] == a[1..] + b;
      ReadmeNamesAppend(a[1..], b);
    }
  }

  /** The readme served is the first entry, in the directory's order, that the
      pattern matches. */
  lemma FirstReadme(entries: seq<DirEntry>, k: nat)
    requires k < |entries| && IsReadmeName(entries[k].name)
    requires forall j :: 0 <= j < k ==> !IsReadmeName(entries[j].name)
    ensures ReadmeNames(entries) != [] && ReadmeNames(entries)[0] == entries[k].name
  {
    assert entries == entries[..k] + entries[k..];
    ReadmeNamesAppend(entries[..k], entries[k..]);
    assert ReadmeNames(entries[..k]) == [];
  }

  /** A request that climbs out of a one-element root with ".." and names a
      sibling is refused: as missing unless the file system cannot examine the
      sibling, in which case the reason is reported. */
  lemma DotDotEscapeRefused(cfg: Config, req: Request, fs: FileSystem, b: string)
    requires |Elements(cfg.root)| == 1 && PlainName(b) && b != Elements(cfg.root)[0]
    requires req.urlPath == "/../" + b
    ensures Route(cfg, req, fs).Fail?
    ensures var p := ReqPath(cfg.root, req.urlPath);
      !(p in fs && fs[p].Unstatable?) ==> Route(cfg, req, fs) == Fail(NotFound(req.urlPath))
  {
    var p := ReqPath(cfg.root, req.urlPath);
    EscapeElements(cfg.root, b);
    IsInRejectsOutside(cfg.cwd, p, cfg.root);
    NotFoundIff(cfg, req, fs);
  }

  /** Whatever the URL path holds, a request that resolves to a path whose elements
      do not extend the root's is refused, as missing unless the file system cannot
      examine the path. */
  lemma OutsideRefused(cfg: Config, req: Request, fs: FileSystem)
    requires var e, r := Elements(ReqPath(cfg.root, req.urlPath)), Elements(cfg.root);
      !(|r| <= |e| && e[..|r|] == r)
    ensures Route(cfg, req, fs).Fail?
    ensures var p := ReqPath(cfg.root, req.urlPath);
      !(p in fs && fs[p].Unstatable?) ==> Route(cfg, req, fs) == Fail(NotFound(req.urlPath))
  {
    var p := ReqPath(cfg.root, req.urlPath);
    ReqPathElements(cfg.root, req.urlPath);
    IsInRejectsOutside(cfg.cwd, p, cfg.root);
    NotFoundIff(cfg, req, fs);
  }

  lemma EscapeElements(root: Root, b: string)
    requires |Elements(root)| == 1 && IsName(b)
    ensures IsAbs(ReqPath(root, "/../" + b))
    ensures Elements(ReqPath(root, "/../" + b)) == [b]
  {
    var url := "/../" + b;
    ReqPathElements(root, url);
    assert url == ("" + "/" + "..") + "/" + b;
    SplitConcat("" + "/" + "..", b);
    SplitConcat("", "..");
    SplitName("");
    SplitName("..");
    SplitName(b);
    assert Split(url) == ["", "..", b];
    var a := Elements(root);
    assert a == [a[0]];
    ResolveConcat(true, a, ["", ".."], [b]);
    assert Resolve(true, a, ["", ".."]) == [];
  }

  // ---------------------------------------------------------------------------
  // What the listing shows

  /** The link to an entry is the absolute path of the entry below the URL path,
      whatever the URL path holds. */
  lemma EntryTargetIsChild(url: string, name: string)
    requires IsName(name)
    ensures IsAbs(EntryTarget(url, name))
    ensures Elements(EntryTarget(url, name)) == Elements(url) + [name]
  {
    var s := url + "/" + name;
    var joined := "/" + "/" + s;
    assert Join(["/", url, name]) == joined by {
      assert ["/", url, name][1..] == [url, name];
      assert [url, name][1..] == [name];
      assert Join([name]) == name;
      assert Join([url, name]) == s;
    }
    CleanRooted(joined);
    ElementsOfClean(joined);
    ElementsAppend("/", s);
    assert Elements("/") == [] by {
      assert "/" == "" + "/" + "";
      SplitConcat("", "");
    }
    assert Split(s) == Split(s);
    assert Elements(s) == Resolve(true, [], Split(s));
    ElementsAfter(url, name);
  }

  /** Each entry's link is an anchor whose quoted href reads back as the entry's
      path below the URL path, and which shows the entry's name, with a "/" for a
      directory. */
  lemma EntryLinkReadsBack(url: string, e: DirEntry)
    requires IsName(e.name)
    ensures var q := GoQuote.Quote(EntryTarget(url, e.name));
      var l := EntryLink(url, e);
      HasPrefix(l, "<a href=" + q + ">" + e.name) &&
      GoQuote.Unquote(q) == Some(EntryTarget(url, e.name)) &&
      Elements(EntryTarget(url, e.name)) == Elements(url) + [e.name]
  {
    GoQuote.UnquoteQuote(EntryTarget(url, e.name));
    EntryTargetIsChild(url, e.name);
  }

  /** The parent link points at the URL path with its last element cut off
      (`Paths.DirOfIsParent` and `Paths.DirOfTrailingSlash` say where that leads),
      and the quoted target reads back as that path. */
  lemma ParentLinkReadsBack(url: string)
    requires url != "/"
    ensures HasPrefix(ParentLink(url), "<a href=" + GoQuote.Quote(DirOf(url)))
    ensures GoQuote.Unquote(GoQuote.Quote(DirOf(url))) == Some(DirOf(url))
  {
    PrefixOfAppend("<a href=" + GoQuote.Quote(DirOf(url)), ">../</a><br>");
    GoQuote.UnquoteQuote(DirOf(url));
  }

  /** The listing holds the i-th entry's link right after the heading, the parent
      link and the links of the entries before it: every entry is listed, in the
      order the directory gives. */
  lemma ListingEntryAt(url: string, entries: seq<DirEntry>, i: nat)
    requires i < |entries|
    ensures var links := Links(url, entries);
      links[i] == EntryLink(url, entries[i]) &&
      Document.Occurs(ListingHtml(url, entries),
             |ListingOpen(url) + ParentLink(url)| + |Document.Concat(links[..i])|, links[i])
  {
    Document.ConcatPieceAt(ListingOpen(url) + ParentLink(url), Links(url, entries), "</ul>", i);
  }

  lemma PrefixOfAppend(a: string, b: string)
    ensures HasPrefix(a + b, a)
  {
    assert (a + b)[..|a|] == a;
  }
}
