/**
 * The document wrapper of internal/md/md.go: the fixed page around a body
 * fragment, the content hash the live-reload script compares, and the two
 * writers that send a page with its headers.
 */
module Document {
  import opened Wrappers
  import Base64
  import GoQuote
  import Http

  // ---------------------------------------------------------------------------
  // The fixed parts of every page

  /** The doctype, the start of the head and the default style sheet. */
  const HeadStr: string :=
    "<!DOCTYPE html><html><head><meta charset=\"utf-8\">" +
    "<meta name=\"viewport\" content=\"width=device-width, initial-scale=1\">" +
    "<style>:root {color-scheme: light dark;}" +
    "* {min-width: 0;min-height: 0;box-sizing: border-box;}" +
    "body {font-family: sans-serif;}h1, h2, h3, h4, h5, h6 {font-family: serif;}" +
    "code, pre {font-family: monospace;}main {max-width: 1000px;" +
    "margin: 0 auto;padding: 4rem 1rem;}a {color: #007bff;" +
    "text-decoration: underline;}a:hover {color: #0056b3;}" +
    "table {border-collapse: collapse;width: 100%;}" +
    "table, td, th {border: 1px solid;}td, th {padding: 0.5rem;}" +
    "blockquote {margin: 0;padding: 0.5rem;background-color: #007bff40;" +
    "border-left: 0.25rem solid #007bff;}code, blockquote {border-radius: 0.25rem" +
    ";}pre > code:not(.hljs) {color: rgb(152, 168, 222);" +
    "background-color: rgb(22, 25, 29);padding: 1em;" +
    "display: block;}</style>"

  /** The script that polls the page with HEAD requests and reloads it when the
      Serve-Hash header differs from the meta tag. */
  const UpdateScript: string :=
    "<script defer>const hashEl = document.querySelector('meta[name=\"serve-hash\"" +
    "]');if (!hashEl) {throw new Error(\"serve-hash meta tag not found\");}" +
    "const hash = hashEl.content;async function isContentUpToDate() {const respon" +
    "se = await fetch(window.location.href, {cache: \"no-store\", method: \"HEAD\"" +
    "});const newHash = response.headers.get(\"Serve-Hash\");" +
    "if (newHash !== hash) {window.location.reload();}}" +
    "window.setInterval(isContentUpToDate, 2000);" +
    "</script>"

  /** The script that rewrites links beginning with "." against `dirPath`. */
  const AnchorsScript: string :=
    "<script defer>console.log(dirPath);const anchors = document.querySelectorAll" +
    "(\"a[href]\");for(const a of anchors) {const href = a.getAttribute(\"href\")" +
    ";if (href.startsWith(\".\")) {const url = new URL(window.location);" +
    "url.pathname = ((dirPath || url.pathname) + href.substring(1)).replace(/\\/+" +
    "/g,\"/\");a.setAttribute(\"href\", url.href);}" +
    "else{a.setAttribute(\"target\", \"_blank\");}}" +
    "</script>"

  /** The library snippets `WriteMarkdown` passes, in this order: MathJax, the
      highlight.js style sheet, highlight.js, and its start-up call. */
  const MarkdownLibs: seq<string> := [
    "<script id=\"MathJax-script\" async defer src=\"https://cdn.jsdelivr.net/npm" +
      "/mathjax@3/es5/tex-mml-chtml.js\"></script>",
    "<link rel=\"stylesheet\" href=\"https://cdn.jsdelivr.net/gh/highlightjs/cdn-" +
      "release@11.9.0/build/styles/github-dark.min.css\">",
    "<script src=\"https://cdn.jsdelivr.net/gh/highlightjs/cdn-release@11.9.0/bui" +
      "ld/highlight.min.js\"></script>",
    "<script defer>hljs.highlightAll();</script>"
  ]

  const MetaOpen: string := "<meta name=\"serve-hash\" content=\""
  const MetaClose: string := "\">"
  const ScriptOpen: string := "<script>const dirPath = "
  const ScriptClose: string := ";</script>"
  const TitleOpen: string := "<title>"
  const TitleClose: string := "</title></head><body><main>"
  const MainClose: string := "</main>"
  const DocClose: string := "</body></html>"

  // ---------------------------------------------------------------------------
  // The content hash

  /** The SHA-1 digest of the empty input: the state of the package-level hash,
      which is never written to. */
  const EmptySha1: seq<Base64.byte> :=
    [0xda, 0x39, 0xa3, 0xee, 0x5e, 0x6b, 0x4b, 0x0d, 0x32, 0x55,
     0xbf, 0xef, 0x95, 0x60, 0x18, 0x90, 0xaf, 0xd8, 0x07, 0x09]

  /** A string as the bytes it holds, one character per byte. */
  function Bytes(s: string): (b: seq<Base64.byte>)
    ensures |b| == |s|
    ensures forall i :: 0 <= i < |s| ==> b[i] == s[i] as int % 256
  {
    seq(|s|, i requires 0 <= i < |s| => s[i] as int % 256)
  }

  /** A string every character of which is a byte. */
  predicate IsByteString(s: string) {
    forall i :: 0 <= i < |s| ==> s[i] as int < 256
  }

  /** `contentHash`: `h.Sum(content)` appends the digest of nothing to `content`,
      so this is the base64 text of the content followed by `EmptySha1`. */
  function ContentHash(content: string): (h: string)
    ensures |h| == 4 * ((|content| + 22) / 3)
    ensures forall i :: 0 <= i < |h| ==> Base64.IsAlphabet(h[i]) || h[i] == '='
  {
    Base64.Encode(Bytes(content) + EmptySha1)
  }

  // ---------------------------------------------------------------------------
  // The page

  /** The script defining `dirPath`, written with `%q`. */
  function DirPathScript(dirPath: string): string {
    ScriptOpen + GoQuote.Quote(dirPath) + ScriptClose
  }

  /** The library snippets one after the other. */
  function Concat(libs: seq<string>): string
    decreases |libs|
  {
    if libs == [] then "" else Concat(libs[..|libs| - 1]) + libs[|libs| - 1]
  }

  /** What `doc` writes before the body, given the head text: the head, the meta
      tag carrying the hash of the body, the `dirPath` script, the title, and the
      start of the body. */
  function Before(head: string, title: string, body: string, dirPath: string): string {
    head + MetaOpen + ContentHash(body) + MetaClose + DirPathScript(dirPath) + TitleOpen + title + TitleClose
  }

  /** What `doc` writes after the body, given the two script texts. */
  function After(update: string, anchors: string, libs: seq<string>): string {
    MainClose + Concat(libs) + update + anchors + DocClose
  }

  /** The page for any head and script texts; the layout lemmas below hold for all
      of them. */
  function Page(head: string, update: string, anchors: string,
                title: string, body: string, dirPath: string, libs: seq<string>): string {
    Before(head, title, body, dirPath) + body + After(update, anchors, libs)
  }

  /** `doc`: the page `WriteDoc` sends, with the server's own head and scripts. */
  function DocText(title: string, body: string, dirPath: string, libs: seq<string>): string {
    Page(HeadStr, UpdateScript, AnchorsScript, title, body, dirPath, libs)
  }

  /** Where the title starts in the page. */
  function TitleAt(head: string, body: string, dirPath: string): nat {
    |head| + |MetaOpen| + |ContentHash(body)| + |MetaClose| + |DirPathScript(dirPath)| + |TitleOpen|
  }

  /** The value of an HTML attribute: everything up to the closing quote. */
  function AttributeValue(s: string): string
    decreases |s|
  {
    if |s| == 0 || s[0] == '"' then "" else [s[0]] + AttributeValue(s[1..])
  }

  /** Appending the next snippet extends `Concat` of a prefix by that snippet. */
  lemma ConcatStep(libs: seq<string>, i: nat)
    requires i < |libs|
    ensures Concat(libs[..i + 1]) == Concat(libs[..i]) + libs[i]
  {
    assert libs[..i + 1][..i] == libs[..i];
  }

  /** One round of a builder loop that appends `pieces` one by one after `before`. */
  lemma ConcatExtend(before: string, pieces: seq<string>, i: nat, sb: string, piece: string)
    requires i < |pieces| && sb == before + Concat(pieces[..i]) && piece == pieces[i]
    ensures sb + piece == before + Concat(pieces[..i + 1])
  {
    ConcatStep(pieces, i);
    AppendAssoc(before, Concat(pieces[..i]), pieces[i]);
  }

  lemma AppendEmpty(a: string)
    ensures a + "" == a
  {
  }

  lemma Regroup(p: string, a: string, b: string, c: string, d: string, e: string, f: string)
    ensures p + a + b + c + d + e + f == p + a + (b + c + d + e + f)
  {
  }

  lemma AppendAssoc(a: string, b: string, c: string)
    ensures a + b + c == a + (b + c)
  {
  }

  /** `doc` as `strings.Builder` calls: the pieces are appended one by one and
      the libraries in a loop. The head and the two scripts are parameters, so
      that the proof does not look inside the long constant texts; `WriteDoc`
      passes the server's own. */
  method BuildPage(head: string, update: string, anchors: string,
                   title: string, body: string, dirPath: string, libs: seq<string>) returns (page: string)
    ensures page == Page(head, update, anchors, title, body, dirPath, libs)
  {
    var sb := head;
    sb := sb + MetaOpen;
    sb := sb + ContentHash(body);
    sb := sb + MetaClose;
    sb := sb + DirPathScript(dirPath);
    sb := sb + TitleOpen;
    sb := sb + title;
    sb := sb + TitleClose;
    ghost var front := sb;
    sb := sb + body;
    sb := sb + MainClose;
    ghost var before := sb;
    assert Concat(libs[..0]) == "";
    AppendEmpty(before);
    var i := 0;
    while i < |libs|
      invariant 0 <= i <= |libs|
      invariant sb == before + Concat(libs[..i])
    {
      ConcatExtend(before, libs, i, sb, libs[i]);
      sb := sb + libs[i];
      i := i + 1;
    }
    assert libs[..|libs|] == libs;
    sb := sb + update;
    sb := sb + anchors;
    sb := sb + DocClose;
    page := sb;
    Regroup(front, body, MainClose, Concat(libs), update, anchors, DocClose);
    assert front == Before(head, title, body, dirPath);
  }

  // ---------------------------------------------------------------------------
  // Where each part lands in the page

  /** Where the body starts in the page. */
  function BodyAt(head: string, title: string, body: string, dirPath: string): nat {
    TitleAt(head, body, dirPath) + |title| + |TitleClose|
  }

  /** `piece` stands in `s` from offset `k` on. */
  predicate Occurs(s: string, k: nat, piece: string) {
    k + |piece| <= |s| && s[k..k + |piece|] == piece
  }

  // The shapes of the page's concatenation, for any parts

  lemma Middle(a: string, x: string, c: string)
    ensures |a| + |x| <= |a + (x + c)| && (a + (x + c))[|a|..|a| + |x|] == x
  {
  }

  lemma FrameShape(d: string, h: string, a1: string, a2: string, a3: string, a4: string, a5: string, a6: string,
                   a7: string, b: string, m: string, c: string, u: string, an: string, dc: string)
    requires d == h + a1 + a2 + a3 + a4 + a5 + a6 + a7 + b + (m + c + u + an + dc)
    ensures Occurs(d, 0, h) && |dc| <= |d| && Occurs(d, |d| - |dc|, dc)
  {
    var mid := a1 + a2 + a3 + a4 + a5 + a6 + a7 + b + m + c + u + an;
    assert d == h + mid + dc;
    assert d[..|h|] == h;
    assert d[|d| - |dc|..|d|] == dc;
  }

  lemma TitleShape(d: string, i: nat, p: string, to: string, t: string, tc: string, b: string, after: string)
    requires d == p + to + t + tc + b + after && i == |p| + |to|
    ensures i >= |to| && Occurs(d, i - |to|, to) && Occurs(d, i, t) && Occurs(d, i + |t|, tc)
  {
    assert d == p + (to + (t + (tc + (b + after))));
    Middle(p, to, t + (tc + (b + after)));
    Middle(p + to, t, tc + (b + after));
    Middle(p + to + t, tc, b + after);
  }

  lemma BodyShape(d: string, i: nat, p: string, tc: string, b: string, after: string)
    requires d == p + tc + b + after && i == |p| + |tc|
    ensures i >= |tc| && Occurs(d, i - |tc|, tc) && Occurs(d, i, b) &&
            Occurs(d, i + |b|, after) && i + |b| + |after| == |d|
  {
    OccursAtEnd(p, tc);
    OccursExtended(p + tc, b, |p|, tc);
    OccursExtended(p + tc + b, after, |p|, tc);
    OccursAtEnd(p + tc, b);
    OccursExtended(p + tc + b, after, i, b);
    OccursAtEnd(p + tc + b, after);
  }

  lemma OccursAtEnd(a: string, x: string)
    ensures Occurs(a + x, |a|, x)
  {
    assert (a + x)[|a|..|a| + |x|] == x;
  }

  lemma OccursExtended(z: string, w: string, k: nat, x: string)
    requires Occurs(z, k, x)
    ensures Occurs(z + w, k, x)
  {
    assert (z + w)[k..k + |x|] == z[k..k + |x|];
  }

  lemma MetaShape(d: string, i: nat, h: string, mo: string, x: string, mc: string, s1: string, s2: string,
                  s3: string, s4: string, b: string, after: string)
    requires d == h + mo + x + mc + s1 + s2 + s3 + s4 + b + after && i == |h| + |mo|
    ensures Occurs(d, |h|, mo) && i <= |d| && d[i..] == x + (mc + s1 + s2 + s3 + s4 + b + after)
  {
    assert d == h + (mo + (x + (mc + s1 + s2 + s3 + s4 + b + after)));
    Middle(h, mo, x + (mc + s1 + s2 + s3 + s4 + b + after));
  }

  lemma ScriptShape(d: string, i: nat, p: string, so: string, q: string, sc: string, s1: string, s2: string,
                    s3: string, b: string, after: string)
    requires d == p + (so + q + sc) + s1 + s2 + s3 + b + after && i == |p| + |so|
    ensures Occurs(d, i, q)
  {
    assert d == p + so + (q + (sc + s1 + s2 + s3 + b + after));
    Middle(p + so, q, sc + s1 + s2 + s3 + b + after);
  }

  // The layout of the page

  /** The page starts with the head and ends with the closing tags. */
  lemma PageFrame(head: string, update: string, anchors: string,
                  title: string, body: string, dirPath: string, libs: seq<string>)
    ensures var d := Page(head, update, anchors, title, body, dirPath, libs);
      Occurs(d, 0, head) && |DocClose| <= |d| && Occurs(d, |d| - |DocClose|, DocClose)
  {
    FrameShape(Page(head, update, anchors, title, body, dirPath, libs), head, MetaOpen, ContentHash(body), MetaClose,
               DirPathScript(dirPath), TitleOpen, title, TitleClose, body, MainClose, Concat(libs), update, anchors,
               DocClose);
  }

  /** The title is copied as it is, right after "<title>" and right before
      "</title></head><body><main>". */
  lemma PageTitle(head: string, update: string, anchors: string,
                  title: string, body: string, dirPath: string, libs: seq<string>)
    ensures var d, t := Page(head, update, anchors, title, body, dirPath, libs), TitleAt(head, body, dirPath);
      t >= |TitleOpen| && Occurs(d, t - |TitleOpen|, TitleOpen) && Occurs(d, t, title) &&
      Occurs(d, t + |title|, TitleClose)
  {
    TitleShape(Page(head, update, anchors, title, body, dirPath, libs), TitleAt(head, body, dirPath),
               head + MetaOpen + ContentHash(body) + MetaClose + DirPathScript(dirPath), TitleOpen, title,
               TitleClose, body, After(update, anchors, libs));
  }

  /** The body is copied as it is, right after "<body><main>" (the end of
      `TitleClose`), and what `After` gives follows it up to the end: "</main>",
      the libraries in their order, the update script, the anchors script and the
      closing tags. */
  lemma PageBody(head: string, update: string, anchors: string,
                 title: string, body: string, dirPath: string, libs: seq<string>)
    ensures var d, b := Page(head, update, anchors, title, body, dirPath, libs), BodyAt(head, title, body, dirPath);
      var after := After(update, anchors, libs);
      b >= |TitleClose| && Occurs(d, b - |TitleClose|, TitleClose) && Occurs(d, b, body) &&
      Occurs(d, b + |body|, after) && b + |body| + |after| == |d|
  {
    BodyShape(Page(head, update, anchors, title, body, dirPath, libs), BodyAt(head, title, body, dirPath),
              head + MetaOpen + ContentHash(body) + MetaClose + DirPathScript(dirPath) + TitleOpen + title,
              TitleClose, body, After(update, anchors, libs));
  }

  /** `Concat` of a list is `Concat` of any prefix followed by `Concat` of the rest. */
  lemma {:induction false} ConcatSplit(libs: seq<string>, k: nat)
    requires k <= |libs|
    ensures Concat(libs) == Concat(libs[..k]) + Concat(libs[k..])
    decreases |libs|
  {
    if k == |libs| {
      assert libs[..k] == libs;
      assert libs[k..] == [];
    } else {
      var n := |libs| - 1;
      var init := libs[..n];
      ConcatSplit(init, k);
      assert init[..k] == libs[..k];
      assert libs[k..] == init[k..] + [libs[n]];
      var rest := libs[k..];
      assert rest[..|rest| - 1] == init[k..];
      AppendAssoc(Concat(libs[..k]), Concat(init[k..]), libs[n]);
    }
  }

  /** Each library snippet appears as it is, after the ones before it in the list. */
  lemma LibAt(libs: seq<string>, i: nat)
    requires i < |libs|
    ensures Occurs(Concat(libs), |Concat(libs[..i])|, libs[i])
  {
    ConcatSplit(libs, i);
    var rest := libs[i..];
    ConcatSplit(rest, 1);
    assert rest[..1] == [libs[i]];
    assert Concat([libs[i]]) == Concat([libs[i]][..0]) + libs[i];
    assert [libs[i]][..0] == [];
    assert Concat([libs[i]]) == libs[i];
    Middle(Concat(libs[..i]), libs[i], Concat(rest[1..]));
  }

  /** The i-th of the pieces concatenated in the middle of a text stands after the
      text's head and the pieces before it. */
  lemma ConcatPieceAt(a: string, pieces: seq<string>, u: string, i: nat)
    requires i < |pieces|
    ensures Occurs(a + Concat(pieces) + u, |a| + |Concat(pieces[..i])|, pieces[i])
  {
    LibAt(pieces, i);
    PieceAt(a, Concat(pieces), u, |Concat(pieces[..i])|, pieces[i]);
  }

  /** A piece found inside the middle part of a concatenation is found in the whole,
      shifted by the first part. */
  lemma PieceAt(a: string, c: string, u: string, j: nat, l: string)
    requires Occurs(c, j, l)
    ensures Occurs(a + c + u, |a| + j, l)
  {
    assert (a + c + u)[|a| + j..|a| + j + |l|] == c[j..j + |l|];
  }

  /** An attribute value is read up to the first quote. */
  lemma {:induction false} AttributeValueOf(v: string, rest: string)
    requires '"' !in v && |rest| > 0 && rest[0] == '"'
    ensures AttributeValue(v + rest) == v
    decreases |v|
  {
    if |v| == 0 {
      assert v + rest == rest;
    } else {
      assert (v + rest)[0] == v[0];
      assert (v + rest)[1..] == v[1..] + rest;
      AttributeValueOf(v[1..], rest);
      assert [v[0]] + v[1..] == v;
    }
  }

  /** The value of the serve-hash meta tag is the Serve-Hash header `WriteDoc`
      sends, which the update script compares with it. */
  lemma MetaMatchesHeader(head: string, update: string, anchors: string, title: string, body: string,
                          dirPath: string, libs: seq<string>, header: map<string, string>)
    ensures var d, m := Page(head, update, anchors, title, body, dirPath, libs), |head| + |MetaOpen|;
      Occurs(d, |head|, MetaOpen) && m <= |d| &&
      AttributeValue(d[m..]) == DocHeaders(header, body)["Serve-Hash"]
  {
    var h := ContentHash(body);
    var rest := MetaClose + DirPathScript(dirPath) + TitleOpen + title + TitleClose + body + After(update, anchors, libs);
    MetaShape(Page(head, update, anchors, title, body, dirPath, libs), |head| + |MetaOpen|, head, MetaOpen, h, MetaClose, DirPathScript(dirPath), TitleOpen, title, TitleClose, body,
              After(update, anchors, libs));
    assert rest[0] == '"';
    assert '"' !in h;
    AttributeValueOf(h, rest);
  }

  /** The `dirPath` script holds a Go string literal that reads back as `dirPath`. */
  lemma DirPathLiteral(head: string, update: string, anchors: string, title: string, body: string,
                       dirPath: string, libs: seq<string>)
    ensures var d := Page(head, update, anchors, title, body, dirPath, libs);
      var s := |head| + |MetaOpen| + |ContentHash(body)| + |MetaClose| + |ScriptOpen|;
      Occurs(d, s, GoQuote.Quote(dirPath)) && GoQuote.Unquote(GoQuote.Quote(dirPath)) == Some(dirPath)
  {
    ScriptShape(Page(head, update, anchors, title, body, dirPath, libs),
                |head| + |MetaOpen| + |ContentHash(body)| + |MetaClose| + |ScriptOpen|, head + MetaOpen + ContentHash(body) + MetaClose, ScriptOpen, GoQuote.Quote(dirPath), ScriptClose,
                TitleOpen, title, TitleClose, body, After(update, anchors, libs));
    GoQuote.UnquoteQuote(dirPath);
  }

  // ---------------------------------------------------------------------------
  // The content hash

  /** The hash decodes to the content followed by the digest of nothing: it
      carries the content itself, not a digest of it. */
  lemma ContentHashDecodes(content: string)
    ensures Base64.Decode(ContentHash(content)) == Some(Bytes(content) + EmptySha1)
  {
    Base64.DecodeEncode(Bytes(content) + EmptySha1);
  }

  /** Different byte strings get different hashes, so any change to a page's body
      changes its hash. */
  lemma ContentHashInjective(a: string, b: string)
    requires IsByteString(a) && IsByteString(b)
    ensures ContentHash(a) == ContentHash(b) ==> a == b
  {
    if ContentHash(a) == ContentHash(b) {
      Base64.EncodeInjective(Bytes(a) + EmptySha1, Bytes(b) + EmptySha1);
      BytesInjective(a, b, EmptySha1);
    }
  }

  /** A byte string is recovered from its bytes, whatever follows them. */
  lemma BytesInjective(a: string, b: string, tail: seq<Base64.byte>)
    requires IsByteString(a) && IsByteString(b) && Bytes(a) + tail == Bytes(b) + tail
    ensures a == b
  {
    var ba, bb := Bytes(a) + tail, Bytes(b) + tail;
    assert |a| == |b|;
    forall i | 0 <= i < |a|
      ensures a[i] == b[i]
    {
      assert ba[i] == bb[i];
    }
  }

  // ---------------------------------------------------------------------------
  // Writing a page

  /** The headers `WriteDoc` sets on top of those already there. */
  function DocHeaders(header: map<string, string>, body: string): map<string, string> {
    header["Content-Type" := "text/html"]["Cache-Control" := "no-store"]["Serve-Hash" := ContentHash(body)]
  }

  /** `WriteDoc`: sets the three headers; for HEAD sends nothing more and
      succeeds, otherwise writes the page and returns the write's error. */
  method WriteDoc(w: Http.ResponseWriter, httpMethod: string, title: string, dirPath: string,
                  body: string, libs: seq<string>) returns (err: Option<string>)
    modifies w
    ensures w.header == DocHeaders(old(w.header), body)
    ensures w.failure == old(w.failure) && w.handoff == old(w.handoff)
    ensures httpMethod == Http.MethodHead ==>
      err.None? && w.status == old(w.status) && w.body == old(w.body)
    ensures httpMethod != Http.MethodHead ==>
      err == w.failure &&
      w.status == (if old(w.status) == 0 then Http.StatusOK else old(w.status)) &&
      w.body == (if err.None? then old(w.body) + DocText(title, body, dirPath, libs) else old(w.body))
  {
    w.SetHeader("Content-Type", "text/html");
    w.SetHeader("Cache-Control", "no-store");
    w.SetHeader("Serve-Hash", ContentHash(body));
    if httpMethod == Http.MethodHead {
      return None;
    }
    var doc := BuildPage(HeadStr, UpdateScript, AnchorsScript, title, body, dirPath, libs);
    err := w.Write(doc);
  }

  /** `WriteMarkdown`: renders the Markdown source with `render` and writes it as a
      page with the four library snippets. */
  method WriteMarkdown(w: Http.ResponseWriter, httpMethod: string, title: string, md: string,
                       dirPath: string, render: string -> string) returns (err: Option<string>)
    modifies w
    ensures w.header == DocHeaders(old(w.header), render(md))
    ensures w.failure == old(w.failure) && w.handoff == old(w.handoff)
    ensures httpMethod == Http.MethodHead ==>
      err.None? && w.status == old(w.status) && w.body == old(w.body)
    ensures httpMethod != Http.MethodHead ==>
      err == w.failure &&
      w.status == (if old(w.status) == 0 then Http.StatusOK else old(w.status)) &&
      w.body == (if err.None? then old(w.body) + DocText(title, render(md), dirPath, MarkdownLibs) else old(w.body))
  {
    var htmlBody := render(md);
    err := WriteDoc(w, httpMethod, title, dirPath, htmlBody, MarkdownLibs);
  }
}
