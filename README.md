# serve — a verified model of the request router, the page wrapper and the containment test

`serve` is a small Go program that serves a directory over HTTP. For each request it
decides between a file, a directory's `index.html`, a directory listing, a rendered
Markdown page and an error. Every page it renders itself is wrapped in a full HTML
document. That document carries a "content hash" in a `<meta>` tag and in a
`Serve-Hash` response header, and a script reloads the page when the header changes.

This project models three parts of the program in Dafny:

- **Containment (`IsIn`)**, in `paths.dfy` (module `Paths`). Go's lexical
  `filepath.Clean`, `filepath.Abs` and `filepath.Rel` are written out over path
  elements.
  - The working directory is a parameter of type `Cwd`. `None` stands for a failing
    `os.Getwd`.
  - `IsIn` is proved equal to a reference predicate `Within` on cleaned elements.
  - The test table of `fs_test.go` is proved for every choice of names not beginning
    with "..", not only for the names in the test.
- **The page wrapper (`md.go`)**, in `document.dfy` (module `Document`).
  - `doc` is a string-builder method proved equal to a function `Page`. Lemmas say
    where each part of the page stands.
  - `contentHash` is modelled as written: the standard base64 text (section 4 of
    RFC 4648, in `base64.dfy`) of the content followed by the 20-byte SHA-1 digest of
    the empty input.
  - `WriteDoc` and `WriteMarkdown` are methods of the `Document` module that take the
    `ResponseWriter` class of `http.dfy` and change it.
  - Go's `%q` is modelled in `quote.dfy`, together with its inverse.
- **The router (`handler.go`)**, in `handler.dfy` (module `Handler`).
  - The file system is a map from cleaned absolute paths to a file, a directory or a
    path that `os.Stat` cannot examine. A path that is not a key does not exist; a path
    through a regular file ("/f.txt/x") is one `os.Stat` cannot examine.
  - `filepath.Glob` of the readme pattern is modelled for a directory path without
    pattern characters (`*`, `?`, `[`, `\`). For a path with them, Go expands the
    directory path itself as a pattern; what that returns is a parameter of the
    configuration (`Config.patternGlob`).
  - The decision a request gets is the function `Route`. Its outcome is an error
    (`Failure`), an index file, a listing, a Markdown page, the file server or
    nothing at all.
  - `Handle` carries the outcome out on a `ResponseWriter`.
  - `buildDirectoryListingHTML` is a loop method proved against `ListingHtml`.

Behaviour of the code that the model keeps, and proves:

- Every error, "does not exist" included, is answered with status 500 and
  `http.Error`'s headers (`Handler.Handle`).
- A GET for a listing or a Markdown page is answered with status 200 (unless a status
  went out before) and the page. A HEAD gets the page's headers and no status; net/http
  then sends 200 for it (`Handler.Handle`).
- A missing path and an existing path outside the root get the same
  "does not exist" error (`Handler.NotFoundIff`). No other error has that text
  (`Handler.NotFoundMessageIff`).
- `os.Stat` is consulted before containment. So the reason a path cannot be examined
  is reported even for a path outside the root (`Handler.StatErrorBeforeContainment`).
- With Markdown compilation on, the handler writes nothing for a file whose URL does
  not end in ".md", so the client gets an empty 200 from net/http; the file server is
  never reached (`Handler.NothingIff`). The model keeps status 0 for "no status
  written"; net/http's implicit 200 is not part of it.
- `IsIn` tests the relative path's first characters, not its first element. So a
  child named "..foo" counts as outside (`Paths.IsInRejectsDotDotName`).
- The content hash is not a digest: it decodes back to the content itself
  (`Document.ContentHashDecodes`) and differs for different contents
  (`Document.ContentHashInjective`). The comment above `contentHash`
  (internal/md/md.go:170) calls it the SHA-1 hash of the content; the model follows
  the code, which takes the hash of nothing and appends it to the content.
- A directory path holding pattern characters is expanded by `filepath.Glob` when the
  readme is looked up. With a root such as "/srv/a?c", the readme looked for can be
  "/srv/abc/README.md", outside the root. The model leaves that expansion abstract, so
  `Handler.MarkdownConfined` promises containment only for paths without pattern
  characters.
- The listing's parent link for a URL path ending in "/" leads to the same directory
  (`Paths.DirOfTrailingSlash`).
- The listing writes bare anchors inside `<ul>`, with no `<li>` (`Handler.ListingHtml`).

The call sites in `handler.go` do not match the signatures in `md.go`.
`md.WriteMarkdown(w, r, r.URL.Path, fileContent)` and
`md.WriteDoc(w, r, r.URL.Path, body)` omit the `dirPath` argument. The model passes
the URL path as both the title and `dirPath`. `Outcome` keeps the two as separate
fields, so the choice is visible.

## Model

| member | source | states |
|---|---|---|
| Paths.IsInCharacterized | internal/utils/fs.go:10-32 | `IsIn` holds exactly when both arguments can be made absolute and, on their cleaned elements, the directory equals the path or is a proper element prefix of it whose next element does not begin with ".." |
| Paths.RelElemsAccepts | internal/utils/fs.go:25-31 | for two different cleaned element lists, the relative path `Rel` builds is non-empty and does not begin with ".." exactly when the reference predicate `Within` holds |
| Paths.IsInSelf | internal/utils/fs.go:21-23 | a path whose absolute form can be computed is in itself |
| Paths.IsInWithoutCwd | internal/utils/fs.go:11-19 | when the working directory cannot be found, a relative argument makes the answer false, never an error |
| Paths.IsInRejectsOutside | internal/utils/fs.go:25-31 | a path whose elements do not start with the directory's elements is not in it |
| Paths.IsInRejectsDotDotName | internal/utils/fs.go:30-31 | a child whose name begins with the characters ".." is judged outside its own parent, because the test is on characters and not on elements |
| Paths.IsInChild | internal/utils/fs.go:10-32 | a name that does not begin with ".." joined to a path inside a directory stays inside it |
| Paths.IsInIgnoresRedundantSuffixes | internal/utils/fs.go:11-19 | appending "/", "/." or "/name/.." to either argument leaves the answer unchanged |
| Paths.CleanIdempotent | internal/utils/fs.go:11-19 | cleaning a cleaned path changes nothing |
| Paths.JoinInjective | internal/utils/fs.go:21-23 | two cleaned absolute paths are equal as strings exactly when their element lists are equal |
| Paths.TestTableAbsolute | internal/utils/fs_test.go:18-25 | the eight absolute rows of the test table hold for any three plain names in place of "home", "user" and ".config", with or without a working directory |
| Paths.TestTableRelativeIn | internal/utils/fs_test.go:26-27 | the two relative rows that expect true hold for any absolute working directory and any plain names |
| Paths.TestTableRelativeOut | internal/utils/fs_test.go:30-32 | the three relative rows that expect false hold for any absolute working directory and any plain names, with a sibling name that differs from the first |
| Paths.TestTableAncestor | internal/utils/fs_test.go:33 | a strict ancestor of a directory is not in it |
| Paths.ElementsOfChild | internal/handler/handler.go:92 | joining a name to an absolute path appends that name to its elements |
| Paths.DirOfIsParent | internal/handler/handler.go:149-152 | `path.Dir` of a URL path whose last piece is a name is the path without that element |
| Paths.DirOfTrailingSlash | internal/handler/handler.go:149-152 | `path.Dir` of a URL path that ends in "/" has the same elements as the path itself |
| Base64.Encode | internal/md/md.go:172 | the text has four characters per started group of three bytes, all from the standard alphabet or "=" |
| Base64.DecodeEncode | internal/md/md.go:171-173 | decoding the base64 text gives back the bytes encoded |
| Base64.EncodeInjective | internal/md/md.go:171-173 | different byte strings have different base64 texts |
| GoQuote.UnquoteQuote | internal/md/md.go:150 | reading back a `%q` literal gives the string that was quoted |
| GoQuote.EscapePlain | internal/handler/handler.go:160 | a string of printable characters other than `"` and `\` is quoted unchanged between the quotes |
| Http.ResponseWriter.Error | internal/handler/handler.go:29-32 | `http.Error` deletes Content-Length, sets the plain-text Content-Type and nosniff, sets the status when none was written, and writes the message and a newline |
| Http.ResponseWriter.Write | internal/md/md.go:184 | the first write fixes status 200; the data is appended unless the connection has failed, whose error is returned |
| Http.ResponseWriter.SetHeader | internal/md/md.go:176-178 | the header map gets the key set to the value and nothing else changes |
| Http.ResponseWriter.HandOff | internal/handler/handler.go:65 | the response is handed to the file server or `http.ServeFile` with nothing written |
| Document.ContentHash | internal/md/md.go:168-173 | the hash of n bytes has length 4·⌈(n+20)/3⌉ and only standard base64 characters and "=" |
| Document.ContentHashDecodes | internal/md/md.go:168-173 | the hash decodes to the content followed by the digest of the empty input, so it carries the content |
| Document.ContentHashInjective | internal/md/md.go:168-173 | different byte strings get different hashes |
| Document.BuildPage | internal/md/md.go:144-166 | the builder's appends, libraries included in a loop, produce exactly `Page` |
| Document.PageFrame | internal/md/md.go:146-163 | the page starts with the head and ends with "</body></html>" |
| Document.PageTitle | internal/md/md.go:151-153 | the title stands unescaped between "<title>" and "</title></head><body><main>" |
| Document.PageBody | internal/md/md.go:153-163 | the body stands verbatim right after "<body><main>" and is followed by exactly "</main>", the libraries, the two scripts and the closing tags up to the page's end |
| Document.LibAt | internal/md/md.go:157-159 | each library snippet stands verbatim after those before it, in the caller's order |
| Document.MetaMatchesHeader | internal/md/md.go:147-149 | the `serve-hash` meta tag's value is the `Serve-Hash` header `WriteDoc` sets |
| Document.DirPathLiteral | internal/md/md.go:150 | the script holds `dirPath` as a `%q` literal that reads back as `dirPath` under Go's string-literal syntax |
| Document.WriteDoc | internal/md/md.go:175-186 | the three headers are always set; for HEAD nothing is written and no error is returned; otherwise the page is written and the write's error returned |
| Document.WriteMarkdown | internal/md/md.go:36-49 | the rendered source is written as a page with the four fixed library snippets, in order |
| Handler.ReadmeNames | internal/handler/handler.go:95 | every name yielded matches the readme pattern, every matching entry's name is yielded, and there are none exactly when no entry matches |
| Handler.ReadmeNamesAppend | internal/handler/handler.go:95 | the readme names of a directory split in two are those of the first part followed by those of the second, so they keep the directory's order |
| Handler.FirstReadme | internal/handler/handler.go:95-97 | the first readme name is that of the first entry, in the directory's order, that matches the pattern |
| Handler.ReqPathElements | internal/handler/handler.go:35 | the requested path is absolute and its elements are the URL path's pieces resolved below the root's elements |
| Handler.ReadmeIsPlain | internal/handler/handler.go:94-96 | a name the readme pattern matches is a plain name |
| Handler.RouteConfined | internal/handler/handler.go:68-82 | every request that is not refused names an existing, examinable path inside the root |
| Handler.IndexConfined | internal/handler/handler.go:111-121 | the index file served is a file inside the root |
| Handler.MarkdownConfined | internal/handler/handler.go:95-103 | the Markdown file rendered is a file and the source rendered is its contents; it is inside the root for a ".md" URL and for a directory path without pattern characters |
| Handler.NotFoundIff | internal/handler/handler.go:68-82 | "does not exist" is the answer exactly when the path is missing, or exists, can be examined and is outside the root |
| Handler.NotFoundMessageIff | internal/handler/handler.go:72-79 | the "does not exist" text is that of no other failure and determines the URL path it names |
| Handler.StatErrorBeforeContainment | internal/handler/handler.go:69-75 | a path `os.Stat` fails on is reported with the failure's reason, whether or not it is inside the root |
| Handler.IndexIff | internal/handler/handler.go:111-121 | a directory's index.html is served exactly when it is a file; a directory of that name gives the "path does not exist" failure |
| Handler.ListingIff | internal/handler/handler.go:88-110 | a listing is produced exactly for a directory inside the root without an examinable index.html when Markdown compilation is off or Glob fails or finds no readme; for a path without pattern characters Glob finds one exactly when an entry matches; the listing is of that directory's entries, titled with the URL path |
| Handler.MarkdownIff | internal/handler/handler.go:95-141 | a Markdown page is produced exactly for the first readme Glob finds in a directory or for a ".md" URL naming a file, when compilation is on and the file can be read; the file rendered is that first match (for a path without pattern characters, the directory joined with the first matching entry's name) or the requested file, and errors name it or the URL path |
| Handler.ServeStaticIff | internal/handler/handler.go:57-65 | the file server gets the request exactly when compilation is off and the path is a file inside the root |
| Handler.NothingIff | internal/handler/handler.go:129-141 | with compilation on, the handler writes nothing exactly for a file inside the root whose URL does not end in ".md" |
| Handler.OutsideRefused | internal/handler/handler.go:35-82 | a URL path whose resolved elements do not extend the root's is refused, as "does not exist" unless the path cannot be examined |
| Handler.DotDotEscapeRefused | internal/handler/handler.go:35-82 | a URL path that climbs out of a one-element root with ".." to a sibling is refused, as "does not exist" unless the sibling cannot be examined |
| Handler.ListingOfRoute | internal/handler/handler.go:107-109 | the listing decided on is always the one built from the requested directory's entries |
| Handler.BuildListingHead | internal/handler/handler.go:146-153 | the heading, "<ul>" and, except at "/", the parent link |
| Handler.BuildLink | internal/handler/handler.go:155-161 | one entry's anchor, with "/" after a directory's name |
| Handler.BuildListing | internal/handler/handler.go:144-162 | the builder's loop over the entries produces exactly `ListingHtml` |
| Handler.EntryTargetIsChild | internal/handler/handler.go:160 | each entry's link target is absolute and has the URL path's elements followed by the entry's name |
| Handler.EntryLinkReadsBack | internal/handler/handler.go:160 | each entry's anchor starts with a quoted href that reads back as the entry's path, followed by the entry's name |
| Handler.ParentLinkReadsBack | internal/handler/handler.go:149-152 | the parent link's quoted href reads back as `path.Dir` of the URL path |
| Handler.ListingEntryAt | internal/handler/handler.go:155-162 | the i-th entry's anchor stands right after the heading, the parent link and the anchors of the entries before it |
| Handler.Report | internal/handler/handler.go:29-32 | a failure becomes `http.Error`'s headers, status 500 unless a status went out before, and its message and a newline |
| Handler.ServeListing | internal/handler/handler.go:163-167 | the listing is written as a page: its headers always; for a GET status 200 unless one went out before, and the page; when the write fails, `http.Error`'s headers on top and nothing written |
| Handler.ServeMarkdown | internal/handler/handler.go:133-137 | the rendered Markdown is written as a page, with the same headers, status and body as a listing page; when the write fails, `http.Error`'s headers on top and nothing written |
| Handler.Handle | internal/handler/handler.go:34-66 | each outcome is carried out: an error gets `http.Error`'s headers, status 500 and its message; an index or static file is handed off untouched; nothing is written for `Nothing`; a listing or Markdown page gets the page headers, and for a GET status 200 and the page, or `http.Error`'s headers when the write fails |

## Left out

- Command-line parsing, listening and signal handling (`cmd/root.go`,
  `cmd/serve/main.go`), and `Init`: the configuration is the `Config` parameter.
- The Markdown parser and renderer (gomarkdown): a function parameter `render`.
- The SHA-1 algorithm: only the digest of the empty input occurs, as the constant
  `EmptySha1`.
- The client-side scripts and the head's style sheet: constant texts. The layout
  lemmas are stated for any head and script texts.
- `%q` of characters outside ASCII: the model writes every character of 0x80 and above
  as itself, and Go escapes invalid or non-printable UTF-8. The page model treats
  strings as byte strings.
- The operating system: `os.Stat`, `os.ReadDir`, `filepath.Glob` and `os.ReadFile` read
  a map. Symbolic links are not modelled (the containment test is lexical anyway).
  `os.ReadDir` errors, which the source ignores, give an empty listing.
- `filepath.Glob`'s pattern syntax and errors: only the one readme pattern is
  modelled, as a case-insensitive match on nine characters, in a directory path without
  pattern characters. For a path with them, Glob's result is the parameter
  `Config.patternGlob`.
- Handler.ReadmeNames, Handler.ListingIff and Handler.MarkdownIff: for a directory path
  holding `*`, `?`, `[` or `\`, they say nothing about which readme Glob finds, or
  whether it fails (a path such as "/srv/a[" makes Glob fail, and the directory is
  listed); that is left to `Config.patternGlob`.
- Handler.MarkdownConfined: for a directory path holding pattern characters it does not
  promise that the readme rendered is inside the root, because Glob may expand the path
  to a sibling directory.
- That a directory's entries are consistent with the map's keys, and sorted by name:
  the model takes the entries as given.
- `http.FileServer` and `http.ServeFile` themselves (content sniffing, ranges,
  redirects): the model records which of them the request is handed to.
- The panic recovery and the logging in `Handle`.
- `Header()` returns a live map in Go. The model sets headers directly in the writer's
  map and ignores Go's snapshot of the header at the first write.
- `filepath.Rel` is modelled only for two absolute paths, the only way `IsIn` calls it.
  Its error branch in `IsIn` is therefore unreachable.
- Handler.ServeListing and Handler.ServeMarkdown: the error text of a failed page write
  cannot reach the client, because the connection stays failed; the program only logs
  it, and logging is not modelled.
- Document.DirPathLiteral: the literal reads back as `dirPath` under Go's syntax, but a
  browser reads it as JavaScript inside HTML, where `\a` is not an escape and a
  `dirPath` holding "</script>" ends the script element early. HTML and JavaScript
  parsing are not modelled.
- net/http's implicit 200 for a response whose handler sets no status (a HEAD page, or
  `Nothing`): the model leaves the status at 0.
