/** Phase one of a run: reading, hashing, change detection and parsing of one candidate. */
module Scanning {
  import opened Base
  import opened Text
  import opened Digests
  import opened Extraction
  import opened CodeTables
  import opened CodeView

  datatype Candidate = Candidate(rel: Path, tracked: bool)

  /** The languages the program knows: by path, and the parse of a source under its language. */
  datatype Registry = Registry(languageOf: Path -> Option<string>, parse: (string, string) -> Option<RawResult>)

  /** What a run sees. A path outside the tree cannot be read. */
  datatype World = World(
    registry: Registry, tree: map<Path, string>, maxFileSize: int, pkgOf: Path -> string, embedding: bool)

  datatype Skip = NotSkipped | Binary | Oversized | Unreadable

  /** content and exsyms are kept for the embed phase only. */
  datatype Parsed = Parsed(record: FileRecord, symbols: seq<SymbolRecord>, derived: Derived, content: string, exsyms: seq<Symbol>)

  datatype Outcome = Outcome(rel: Path, skip: Skip, changed: bool, parsed: Option<Parsed>)

  predicate IsBinary(content: string) {
    NUL in if |content| > 8000 then content[..8000] else content
  }

  function BaseName(p: Path): string {
    p[LastIndexByte(p, '/') + 1..]
  }

  function DeriveRole(p: Path): string {
    var base, lower := ToLower(BaseName(p)), ToLower(p);
    if HasSuffix(base, "_test.go") || Contains(base, ".test.") || Contains(base, ".spec.") || Contains(lower, "/__tests__/") then "test"
    else if HasSuffix(base, ".md") || HasSuffix(base, ".markdown") then "doc"
    else "impl"
  }

  const GENERATED_FILES := {
    "package-lock.json", "npm-shrinkwrap.json", "yarn.lock", "pnpm-lock.yaml", "go.sum",
    "cargo.lock", "composer.lock", "gemfile.lock", "poetry.lock", "pipfile.lock"}

  predicate IsGeneratedFile(p: Path) {
    ToLower(BaseName(p)) in GENERATED_FILES
  }

  function ToRecord(s: Symbol): SymbolRecord {
    SymbolRecord(s.name, s.kind, s.container, s.signature, s.exported)
  }

  function ToRecords(syms: seq<Symbol>): (r: seq<SymbolRecord>)
    ensures |r| == |syms|
    ensures forall i :: 0 <= i < |syms| ==> r[i] == ToRecord(syms[i])
  {
    seq(|syms|, i requires 0 <= i < |syms| => ToRecord(syms[i]))
  }

  function Record(reg: Registry, p: Path, content: string, tracked: bool, pkg: string): FileRecord {
    FileRecord(p, reg.languageOf(p).GetOr(""), pkg, DeriveRole(p),
               if tracked then BlobOid(content) else NoDigest,
               if tracked then NoDigest else Sha256(content),
               reg.languageOf(p).Some?)
  }

  function ParseResult(reg: Registry, p: Path, content: string): Option<RawResult> {
    match reg.languageOf(p)
    case Some(lang) => reg.parse(lang, content)
    case None => None
  }

  /** The rows a file with this content, tracking and package gets. */
  function GroupFor(reg: Registry, p: Path, content: string, tracked: bool, pkg: string): Group {
    match ParseResult(reg, p, content)
    case Some(ir) =>
      Group(Record(reg, p, content, tracked, pkg), ToRecords(Dedupe(ir.symbols)), Derived(ir.imports, ir.exports, ir.todos))
    case None =>
      Group(Record(reg, p, content, tracked, pkg), [], Derived([], [], []))
  }

  function Parse(reg: Registry, p: Path, content: string, tracked: bool, pkg: string, embedding: bool): Parsed {
    var g := GroupFor(reg, p, content, tracked, pkg);
    match ParseResult(reg, p, content)
    case Some(ir) =>
      Parsed(g.file, g.symbols, g.derived, if embedding then content else "", if embedding then Dedupe(ir.symbols) else [])
    case None =>
      var keep := embedding && reg.languageOf(p).None? && !IsGeneratedFile(p);
      Parsed(g.file, g.symbols, g.derived, if keep then content else "", [])
  }

  function GroupOf(p: Parsed): Group {
    Group(p.record, p.symbols, p.derived)
  }

  function SkipOf(w: World, p: Path): Skip {
    if p !in w.tree then Unreadable
    else if w.maxFileSize > 0 && |w.tree[p]| > w.maxFileSize then Oversized
    else if IsBinary(w.tree[p]) then Binary
    else NotSkipped
  }

  function ContentHash(content: string, tracked: bool): (h: Digest)
    ensures h != NoDigest
  {
    if tracked then BlobOid(content) else Sha256(content)
  }

  predicate IsChanged(w: World, c: Candidate, existing: map<Path, Digest>)
    requires c.rel in w.tree
  {
    var stored := if c.rel in existing then existing[c.rel] else NoDigest;
    stored != ContentHash(w.tree[c.rel], c.tracked)
  }

  function ScanOne(w: World, c: Candidate, existing: map<Path, Digest>, full: bool, doParse: bool): (o: Outcome)
    ensures o.rel == c.rel
  {
    if SkipOf(w, c.rel) != NotSkipped then Outcome(c.rel, SkipOf(w, c.rel), false, None)
    else
      var changed := full || IsChanged(w, c, existing);
      if !changed || !doParse then Outcome(c.rel, NotSkipped, changed, None)
      else Outcome(c.rel, NotSkipped, true,
                   Some(Parse(w.registry, c.rel, w.tree[c.rel], c.tracked, w.pkgOf(c.rel), w.embedding)))
  }

  /** The outcomes of a scan, in candidate order; Scan proves the worker pool computes this. */
  function ScanAll(w: World, cands: seq<Candidate>, existing: map<Path, Digest>, full: bool, doParse: bool): (outs: seq<Outcome>)
    ensures |outs| == |cands|
    ensures forall i :: 0 <= i < |cands| ==> outs[i] == ScanOne(w, cands[i], existing, full, doParse)
  {
    seq(|cands|, i requires 0 <= i < |cands| => ScanOne(w, cands[i], existing, full, doParse))
  }

  /** The selected files are sorted and distinct. */
  ghost predicate DistinctRels(cands: seq<Candidate>) {
    forall i, j :: 0 <= i < j < |cands| ==> cands[i].rel != cands[j].rel
  }

  function RelSet(cands: seq<Candidate>): set<Path> {
    set c | c in cands :: c.rel
  }

  /** Equal change keys mean equal content and tracking: the digests are collision-free. */
  lemma HashDetermines(reg: Registry, p: Path, content: string, tracked: bool, pkg: string, content': string, tracked': bool)
    requires var f := Record(reg, p, content, tracked, pkg);
             (if f.blobOid != NoDigest then f.blobOid else f.contentSha) == ContentHash(content', tracked')
    ensures content == content' && tracked == tracked'
  {
  }
}
