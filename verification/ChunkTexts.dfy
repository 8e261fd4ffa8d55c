/** What the embedded texts hold: which changes of a source, a file or a memory change the text, and which do not. */
module ChunkTexts {
  import opened Base
  import opened Text
  import opened Digests
  import opened Extraction
  import opened CodeTables
  import opened Scanning
  import opened Embedder
  import opened EmbedSpec

  // ---- the lines of a symbol ----

  /** A source by its lines. */
  ghost predicate IsSource(lines: seq<string>) {
    lines != [] && Free(lines, '\n')
  }

  function SourceOf(lines: seq<string>): string {
    Join(lines, "\n")
  }

  /** The symbol's lines lie in the source. */
  predicate Spans(s: Symbol, lines: seq<string>) {
    1 <= s.startLine <= s.endLine <= |lines|
  }

  function SpanOf(s: Symbol, lines: seq<string>): seq<string>
    requires Spans(s, lines)
  {
    lines[s.startLine - 1..s.endLine]
  }

  /** Line numbers count from 1 and the last line is included. A span that runs past the end stops there. */
  lemma BodySpanIs(lines: seq<string>, startLine: int, endLine: int)
    requires IsSource(lines)
    ensures 1 <= startLine <= endLine <= |lines| ==> BodySpan(SourceOf(lines), startLine, endLine) == Join(lines[startLine - 1..endLine], "\n")
    ensures 1 <= startLine <= |lines| < endLine ==> BodySpan(SourceOf(lines), startLine, endLine) == Join(lines[startLine - 1..], "\n")
    ensures startLine < 1 || endLine < startLine || |lines| < startLine ==> BodySpan(SourceOf(lines), startLine, endLine) == ""
  {
    hide Split, Join, Free;
    SplitJoin(lines, '\n');
    var src := SourceOf(lines);
    if src == "" {
      EmptySource(lines);
      EmptyBody(startLine, endLine);
    } else if 1 <= startLine <= |lines| < endLine {
      assert lines[startLine - 1..|lines|] == lines[startLine - 1..];
    }
  }

  lemma EmptyBody(startLine: int, endLine: int)
    ensures BodySpan("", startLine, endLine) == ""
    ensures 1 <= startLine <= 1 ==> Join([""][startLine - 1..], "\n") == ""
    ensures 1 <= startLine <= endLine <= 1 ==> Join([""][startLine - 1..endLine], "\n") == ""
  {
    assert [""][0..] == [""] && [""][0..1] == [""];
  }

  lemma EmptySource(lines: seq<string>)
    requires lines != [] && SourceOf(lines) == ""
    ensures lines == [""]
  {
  }

  lemma SameIdentityTexts(s: Symbol, s': Symbol, body: string, body': string, src: string, src': string)
    requires s.name == s'.name && s.container == s'.container && s.signature == s'.signature
    requires BodySpan(src, s.startLine, s.endLine) == body && BodySpan(src', s'.startLine, s'.endLine) == body'
    ensures ChunkText(s, src) == ChunkText(s', src') <==> body == body'
  {
    hide BodySpan;
    var head := (if s.container != "" then s.container + " " else "") + s.name + (if s.signature != "" then "\n" + s.signature else "");
    var tail, tail' := if body != "" then "\n" + body else "", if body' != "" then "\n" + body' else "";
    assert ChunkText(s, src) == head + tail && ChunkText(s', src') == head + tail';
    hide ChunkText;
    if head + tail == head + tail' {
      assert (head + tail)[|head|..] == tail && (head + tail')[|head|..] == tail';
      assert body != "" ==> tail[1..] == body;
      assert body' != "" ==> tail'[1..] == body';
    }
  }

  lemma SpanFree(s: Symbol, lines: seq<string>)
    requires IsSource(lines) && Spans(s, lines)
    ensures SpanOf(s, lines) != [] && Free(SpanOf(s, lines), '\n')
  {
  }

  /** Of a symbol that keeps its name, container and signature, the text changes exactly when a line of it does. Where
      in the file it stands does not matter, nor do the lines around it. */
  lemma TextFollowsSpan(s: Symbol, s': Symbol, a: seq<string>, b: seq<string>)
    requires s.name == s'.name && s.container == s'.container && s.signature == s'.signature
    requires IsSource(a) && IsSource(b) && Spans(s, a) && Spans(s', b)
    ensures ChunkText(s, SourceOf(a)) == ChunkText(s', SourceOf(b)) <==> SpanOf(s, a) == SpanOf(s', b)
  {
    hide ChunkText, BodySpan, Join, Free;
    BodySpanIs(a, s.startLine, s.endLine);
    BodySpanIs(b, s'.startLine, s'.endLine);
    SpanFree(s, a);
    SpanFree(s', b);
    SameIdentityTexts(s, s', Join(SpanOf(s, a), "\n"), Join(SpanOf(s', b), "\n"), SourceOf(a), SourceOf(b));
    if Join(SpanOf(s, a), "\n") == Join(SpanOf(s', b), "\n") {
      JoinInjective(SpanOf(s, a), SpanOf(s', b), '\n');
    }
  }

  // ---- name, container and signature ----

  /** Names and containers are words, and a signature is one line. */
  ghost predicate Regular(s: Symbol) {
    && s.name != "" && ' ' !in s.name && '\n' !in s.name && ' ' !in s.container && '\n' !in s.container
    && s.signature != "" && '\n' !in s.signature
  }

  function HeadOf(s: Symbol): string {
    if s.container != "" then s.container + " " + s.name else s.name
  }

  lemma HeadDetermined(s: Symbol, s': Symbol)
    requires Regular(s) && Regular(s') && HeadOf(s) == HeadOf(s')
    ensures s.name == s'.name && s.container == s'.container
  {
    var h := HeadOf(s);
    if s.container != "" {
      assert h[|s.container|] == ' ';
    }
    if s'.container != "" {
      assert h[|s'.container|] == ' ';
    }
    if s.container != "" && s'.container != "" {
      CutUnique(s.container, s.name, s'.container, s'.name, ' ');
    }
  }

  /** The text of a regular symbol as lines: the head, the signature, and the body if it has any. */
  lemma RegularText(s: Symbol, src: string)
    requires Regular(s)
    ensures var body := BodySpan(src, s.startLine, s.endLine);
            ChunkText(s, src) == HeadOf(s) + ['\n'] + (s.signature + if body != "" then ['\n'] + body else "")
    ensures '\n' !in HeadOf(s)
  {
    hide BodySpan;
    var body := BodySpan(src, s.startLine, s.endLine);
    var tail := if body != "" then "\n" + body else "";
    assert HeadOf(s) + ("\n" + s.signature) + tail == HeadOf(s) + ['\n'] + (s.signature + tail);
  }

  lemma SignatureDetermined(a: string, x: string, b: string, y: string)
    requires '\n' !in a && '\n' !in b
    requires a + (if x != "" then ['\n'] + x else "") == b + if y != "" then ['\n'] + y else ""
    ensures a == b && x == y
  {
    assert a + "" == a && b + "" == b;
    if x != "" {
      var t := a + ['\n'] + x;
      assert a + (['\n'] + x) == t && t[|a|] == '\n';
      assert '\n' in t;
    }
    if y != "" {
      var t := b + ['\n'] + y;
      assert b + (['\n'] + y) == t && t[|b|] == '\n';
      assert '\n' in t;
    }
    if x != "" && y != "" {
      CutUnique(a, x, b, y, '\n');
    }
  }

  /** So regular symbols have equal texts only if name, container, signature and body are all the same. */
  lemma TextDetermines(s: Symbol, s': Symbol, src: string, src': string)
    requires Regular(s) && Regular(s')
    ensures ChunkText(s, src) == ChunkText(s', src') <==>
      && s.name == s'.name && s.container == s'.container && s.signature == s'.signature
      && BodySpan(src, s.startLine, s.endLine) == BodySpan(src', s'.startLine, s'.endLine)
  {
    hide ChunkText, BodySpan, HeadOf, Regular;
    RegularText(s, src);
    RegularText(s', src');
    var body, body' := BodySpan(src, s.startLine, s.endLine), BodySpan(src', s'.startLine, s'.endLine);
    if s.name == s'.name && s.container == s'.container && s.signature == s'.signature {
      SameIdentityTexts(s, s', body, body', src, src');
    }
    if ChunkText(s, src) == ChunkText(s', src') {
      CutUnique(HeadOf(s), s.signature + (if body != "" then ['\n'] + body else ""),
                HeadOf(s'), s'.signature + (if body' != "" then ['\n'] + body' else ""), '\n');
      HeadDetermined(s, s');
      RegularSignature(s);
      RegularSignature(s');
      SignatureDetermined(s.signature, body, s'.signature, body');
    }
  }

  lemma RegularSignature(s: Symbol)
    requires Regular(s)
    ensures '\n' !in s.signature
  {
  }

  /** Without a signature the first line of the body takes its place: these two symbols share a text. */
  lemma SignatureLikeBody()
    ensures ChunkText(Symbol("f", "function", "", "x", true, 0, 0), "x") == ChunkText(Symbol("f", "function", "", "", true, 1, 1), "x")
  {
    assert IndexByte("x", '\n') == -1;
    assert Split("x", '\n') == ["x"];
    assert ["x"][0..1] == ["x"];
    assert Join(["x"], "\n") == "x";
  }

  // ---- files without symbols ----

  /** The first 64 KiB. */
  function Head(content: string): string {
    content[..if |content| < 65536 then |content| else 65536]
  }

  function LabelOf(f: FileRecord): string {
    f.path + (if f.pkg != "" then " " + f.pkg else "") + (if f.role != "" then " " + f.role else "")
  }

  /** Path, package and role, then the head of the content. */
  lemma FallbackIs(p: Parsed)
    requires p.symbols == [] && p.record.path != ""
    ensures FileFallbackText(p) == LabelOf(p.record) + if p.content != "" then " " + Head(p.content) else ""
  {
    var f := p.record;
    assert Signatures(p.symbols) == [] && NonEmpty([]) == [];
    var labels := [f.path] + (if f.pkg != "" then [f.pkg] else []) + (if f.role != "" then [f.role] else []);
    LabelsKept(f);
    assert NonEmpty([f.path, f.pkg, f.role]) == labels;
    JoinLabels(f);
    var head := if p.content != "" then [HeadSlice(p.content)] else [];
    HeadIs(p.content);
    assert labels + [] == labels;
    if p.content != "" {
      JoinSnoc(labels, HeadSlice(p.content), " ");
    }
    hide NonEmpty, Join, HeadSlice;
    assert FileFallbackText(p) == Join(labels + head, " ");
  }

  lemma HeadIs(content: string)
    ensures HeadSlice(content) == Head(content)
  {
    assert content[..|content|] == content;
  }

  lemma LabelsKept(f: FileRecord)
    requires f.path != ""
    ensures NonEmpty([f.path, f.pkg, f.role]) == [f.path] + (if f.pkg != "" then [f.pkg] else []) + (if f.role != "" then [f.role] else [])
  {
    assert [f.path, f.pkg, f.role][1..] == [f.pkg, f.role] && [f.pkg, f.role][1..] == [f.role] && [f.role][1..] == [];
    assert NonEmpty([f.role]) == if f.role != "" then [f.role] else [];
  }

  lemma JoinLabels(f: FileRecord)
    ensures Join([f.path] + (if f.pkg != "" then [f.pkg] else []) + (if f.role != "" then [f.role] else []), " ") == LabelOf(f)
  {
    var one, two := [f.path], [f.path] + if f.pkg != "" then [f.pkg] else [];
    if f.pkg != "" {
      JoinSnoc(one, f.pkg, " ");
    }
    if f.role != "" {
      JoinSnoc(two, f.role, " ");
    }
    assert two + [] == two && one + [] == one;
  }

  lemma {:induction false} JoinSnoc(parts: seq<string>, x: string, sep: string)
    requires parts != []
    ensures Join(parts + [x], sep) == Join(parts, sep) + sep + x
  {
    if |parts| == 1 {
      assert (parts + [x])[1..] == [x];
    } else {
      JoinSnoc(parts[1..], x, sep);
      assert (parts + [x])[1..] == parts[1..] + [x];
      hide Join;
      assert parts[0] + sep + (Join(parts[1..], sep) + sep + x) == parts[0] + sep + Join(parts[1..], sep) + sep + x;
    }
  }

  /** The text of a file without symbols changes exactly when the head of its kept content does. */
  lemma FallbackFollowsHead(p: Parsed, p': Parsed)
    requires p.symbols == [] && p'.symbols == [] && p.record.path != ""
    requires LabelOf(p.record) == LabelOf(p'.record) && p'.record.path != ""
    ensures FileFallbackText(p) == FileFallbackText(p') <==> Head(p.content) == Head(p'.content)
  {
    FallbackIs(p);
    FallbackIs(p');
    hide FileFallbackText, LabelOf;
    var front := LabelOf(p.record);
    var tail, tail' := if p.content != "" then " " + Head(p.content) else "", if p'.content != "" then " " + Head(p'.content) else "";
    assert Head(p.content) == "" <==> p.content == "";
    assert Head(p'.content) == "" <==> p'.content == "";
    assert (front + tail)[|front|..] == tail && (front + tail')[|front|..] == tail';
    assert p.content != "" ==> tail[1..] == Head(p.content);
    assert p'.content != "" ==> tail'[1..] == Head(p'.content);
  }

  // ---- memories ----

  /** The non-empty parts of a memory, a line break between any two. */
  lemma MemoryTextIs(m: MemoryRow)
    ensures var tags := Join(m.tags, " ");
            MemoryText(m) ==
            if m.tags == [] then (if m.title == "" then m.body else if m.body == "" then m.title else m.title + "\n" + m.body)
            else if m.title == "" && m.body == "" then tags
            else if m.title == "" then m.body + "\n" + tags
            else if m.body == "" then m.title + "\n" + tags
            else m.title + "\n" + m.body + "\n" + tags
  {
    hide Join;
    var tags := Join(m.tags, " ");
    JoinUpToThree(m.title, m.body, tags);
    var x, y, z := if m.title != "" then [m.title] else [], if m.body != "" then [m.body] else [], if |m.tags| > 0 then [tags] else [];
    assert MemoryText(m) == Join(x + y + z, "\n");
    assert [] + y == y && x + [] == x && [] + z == z && x + y + [] == x + y && [] + y + z == y + z && x + [] + z == x + z;
  }

  lemma JoinUpToThree(x: string, y: string, z: string)
    ensures Join([], "\n") == "" && Join([x], "\n") == x && Join([y], "\n") == y && Join([z], "\n") == z
    ensures Join([x] + [y], "\n") == x + "\n" + y
    ensures Join([x] + [z], "\n") == x + "\n" + z
    ensures Join([y] + [z], "\n") == y + "\n" + z
    ensures Join([x] + [y] + [z], "\n") == x + "\n" + y + "\n" + z
  {
    JoinSnoc([x], y, "\n");
    JoinSnoc([x], z, "\n");
    JoinSnoc([y], z, "\n");
    JoinSnoc([x] + [y], z, "\n");
  }

  /** Every change of a memory's body changes its text, and so does every change of its title. */
  lemma MemoryTextFollows(m: MemoryRow, text: string)
    ensures MemoryText(m.(body := text)) == MemoryText(m) <==> text == m.body
    ensures MemoryText(m.(title := text)) == MemoryText(m) <==> text == m.title
  {
    MemoryTextIs(m);
    MemoryTextIs(m.(body := text));
    MemoryTextIs(m.(title := text));
    hide MemoryText, Join;
    var tags := Join(m.tags, " ");
    BodyCancels(m.title, m.body, text, tags);
    TitleCancels(m.title, text, m.body, tags);
  }

  /** Tags without spaces are told apart too. */
  lemma MemoryTextFollowsTags(m: MemoryRow, tags: seq<string>)
    requires Free(m.tags, ' ') && Free(tags, ' ') && "" !in m.tags && "" !in tags
    ensures MemoryText(m.(tags := tags)) == MemoryText(m) <==> tags == m.tags
  {
    MemoryTextIs(m);
    MemoryTextIs(m.(tags := tags));
    WordsJoin(m.tags);
    WordsJoin(tags);
    var g, g' := Join(m.tags, " "), Join(tags, " ");
    hide MemoryText, Join;
    BodyCancels(m.title, g, g', "");
    BodyCancels(m.body, g, g', "");
    BodyCancels(m.title + "\n" + m.body, g, g', "");
    if g == g' && tags != [] && m.tags != [] {
      JoinInjective(tags, m.tags, ' ');
    }
  }

  lemma WordsJoin(tags: seq<string>)
    requires "" !in tags
    ensures Join(tags, " ") == "" <==> tags == []
  {
    if tags != [] {
      assert tags[0] in tags;
    }
  }

  lemma BodyCancels(t: string, b: string, b': string, g: string)
    ensures t + "\n" + b == t + "\n" + b' ==> b == b'
    ensures b + "\n" + g == b' + "\n" + g ==> b == b'
    ensures t + "\n" + b + "\n" + g == t + "\n" + b' + "\n" + g ==> b == b'
  {
    var p, q := t + "\n" + b, t + "\n" + b';
    assert p[|t| + 1..] == b && q[|t| + 1..] == b';
    var u, v := b + "\n" + g, b' + "\n" + g;
    if u == v {
      assert |b| == |b'|;
      assert u[..|b|] == b && v[..|b|] == b';
    }
    var x, y := p + "\n" + g, q + "\n" + g;
    if x == y {
      assert |p| == |q|;
      assert x[..|p|] == p && y[..|p|] == q;
    }
  }

  lemma TitleCancels(t: string, t': string, b: string, g: string)
    ensures t + "\n" + b == t' + "\n" + b ==> t == t'
    ensures t + "\n" + g == t' + "\n" + g ==> t == t'
    ensures t + "\n" + b + "\n" + g == t' + "\n" + b + "\n" + g ==> t == t'
  {
    BodyCancels("", t, t', b);
    BodyCancels("", t, t', g);
    assert t + "\n" + b + "\n" + g == t + "\n" + (b + "\n" + g);
    assert t' + "\n" + b + "\n" + g == t' + "\n" + (b + "\n" + g);
    BodyCancels("", t, t', b + "\n" + g);
  }

  // ---- models ----

  /** Digests under different models differ, so a model change invalidates every stored chunk. */
  lemma ModelsApart(model: string, text: string, model': string, text': string)
    requires NUL !in model && NUL !in model'
    ensures ChunkSha(model, text) == ChunkSha(model', text') <==> model == model' && text == text'
  {
    if model + [NUL] + text == model' + [NUL] + text' {
      CutUnique(model, text, model', text', NUL);
    }
  }

  lemma BlankConcat(a: string, b: string)
    ensures Blank(a + b) <==> Blank(a) && Blank(b)
  {
    hide IsSpace;
    if Blank(a + b) {
      assert forall i :: 0 <= i < |a| ==> (a + b)[i] == a[i];
      assert forall i :: 0 <= i < |b| ==> (a + b)[|a| + i] == b[i];
    }
  }

  ghost predicate AllBlank(parts: seq<string>) {
    forall i :: 0 <= i < |parts| ==> Blank(parts[i])
  }

  lemma {:induction false} BlankJoin(parts: seq<string>, sep: string)
    requires Blank(sep)
    ensures Blank(Join(parts, sep)) <==> AllBlank(parts)
  {
    hide Blank;
    if parts == [] {
      BlankEmpty();
    } else if |parts| > 1 {
      BlankJoin(parts[1..], sep);
      BlankConcat(parts[0] + sep, Join(parts[1..], sep));
      BlankConcat(parts[0], sep);
      assert AllBlank(parts) <==> Blank(parts[0]) && AllBlank(parts[1..]) by {
        assert parts == [parts[0]] + parts[1..];
      }
    }
  }

  lemma BlankEmpty()
    ensures Blank("")
  {
  }

  /** A memory is embedded exactly when its title, its body or one of its tags has a character that is no space. */
  lemma MemoryEmbedded(mems: Memories, id: Id)
    ensures Embeds(mems, id) <==> id in mems && !(Blank(mems[id].title) && Blank(mems[id].body) && AllBlank(mems[id].tags))
  {
    if id in mems {
      var m := mems[id];
      var tags := Join(m.tags, " ");
      assert Blank(" ") && Blank("\n");
      MemoryTextIs(m);
      BlankJoin(m.tags, " ");
      hide Blank, Join, MemoryText;
      BlankEmpty();
      BlankConcat(m.title, "\n");
      BlankConcat(m.body, "\n");
      BlankConcat(m.title + "\n", m.body);
      BlankConcat(m.title + "\n", tags);
      BlankConcat(m.body + "\n", tags);
      BlankConcat(m.title + "\n" + m.body, "\n");
      BlankConcat(m.title + "\n" + m.body + "\n", tags);
    }
  }
}
