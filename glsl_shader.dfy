/**
 * The text-level logic of the OpenGL shader loader (`GLSLShader`): the
 * `#shader` section splitter of `ParseShader`, the line reading of the
 * two-file constructor, the size check and word conversion of
 * `ConvertSPIRVToGLSL`, its resource renaming scheme, and the choice the
 * two-file constructor makes from the file extensions.
 */
module GlslShader {
  import opened Wrappers

  // ---------------------------------------------------------------------
  // Substrings
  // ---------------------------------------------------------------------

  /** `s.find(t) != npos`: `t` occurs in `s`. */
  function Contains(s: string, t: string): bool
    decreases |s|
  {
    if |s| < |t| then false
    else s[..|t|] == t || Contains(s[1..], t)
  }

  /** Some position of `s` starts a copy of `t`. */
  ghost predicate OccursAt(s: string, t: string, i: int) {
    0 <= i && i + |t| <= |s| && s[i..i + |t|] == t
  }

  /** `Contains` agrees with the definition by positions. */
  lemma {:induction false} ContainsIff(s: string, t: string)
    ensures Contains(s, t) <==> exists i :: OccursAt(s, t, i)
    decreases |s|
  {
    if |s| < |t| {
    } else if s[..|t|] == t {
      assert OccursAt(s, t, 0);
    } else {
      ContainsIff(s[1..], t);
      if Contains(s[1..], t) {
        var i :| OccursAt(s[1..], t, i);
        assert s[i + 1..i + 1 + |t|] == s[1..][i..i + |t|];
        assert OccursAt(s, t, i + 1);
      }
      if exists i :: OccursAt(s, t, i) {
        var i :| OccursAt(s, t, i);
        assert i > 0;
        assert s[1..][i - 1..i - 1 + |t|] == s[i..i + |t|];
        assert OccursAt(s[1..], t, i - 1);
      }
    }
  }

  lemma ContainsAt(s: string, t: string, i: nat)
    requires OccursAt(s, t, i)
    ensures Contains(s, t)
  {
    ContainsIff(s, t);
  }

  /** A string lacking the first character of `t` does not contain `t`. */
  lemma LacksFirstChar(s: string, t: string)
    requires |t| > 0 && forall k | 0 <= k < |s| :: s[k] != t[0]
    ensures !Contains(s, t)
  {
    ContainsIff(s, t);
  }

  // ---------------------------------------------------------------------
  // Lines, as `getline` reads them
  // ---------------------------------------------------------------------

  predicate NoNewline(l: string) {
    forall k | 0 <= k < |l| :: l[k] != '\n'
  }

  /** The position of the first newline of `s`, or `|s|` when there is none. */
  function LineEnd(s: string): (e: nat)
    ensures e <= |s| && NoNewline(s[..e]) && (e < |s| ==> s[e] == '\n')
  {
    if |s| == 0 || s[0] == '\n' then 0
    else
      var e := LineEnd(s[1..]);
      assert s[..e + 1] == [s[0]] + s[1..][..e];
      e + 1
  }

  /**
   * The lines `getline` returns from a stream holding `s`: the text between
   * newlines, the last one only when it is not empty.
   */
  function Lines(s: string): seq<string>
    decreases |s|
  {
    if |s| == 0 then []
    else
      var e := LineEnd(s);
      if e == |s| then [s] else [s[..e]] + Lines(s[e + 1..])
  }

  /** Each line followed by a newline, as `ss << line << '\n'` writes them. */
  function Joined(ls: seq<string>): string {
    if |ls| == 0 then "" else ls[0] + "\n" + Joined(ls[1..])
  }

  lemma {:induction false} JoinedAppend(ls: seq<string>, l: string)
    ensures Joined(ls + [l]) == Joined(ls) + l + "\n"
  {
    if |ls| > 0 {
      assert (ls + [l])[1..] == ls[1..] + [l];
      JoinedAppend(ls[1..], l);
    } else {
      assert ls + [l] == [l];
    }
  }

  lemma LineEndOfLine(l: string, rest: string)
    requires NoNewline(l)
    ensures LineEnd(l + "\n" + rest) == |l|
    decreases |l|
  {
    if |l| > 0 {
      assert (l + "\n" + rest)[1..] == l[1..] + "\n" + rest;
      LineEndOfLine(l[1..], rest);
    }
  }

  /** Reading back what was written line by line gives the same lines. */
  lemma {:induction false} LinesOfJoined(ls: seq<string>)
    requires forall k | 0 <= k < |ls| :: NoNewline(ls[k])
    ensures Lines(Joined(ls)) == ls
  {
    if |ls| > 0 {
      var s := Joined(ls);
      LineEndOfLine(ls[0], Joined(ls[1..]));
      assert s[..|ls[0]|] == ls[0];
      assert s[|ls[0]| + 1..] == Joined(ls[1..]);
      LinesOfJoined(ls[1..]);
    }
  }

  /** Every line `getline` returns lacks newlines. */
  lemma {:induction false} LinesHaveNoNewline(s: string)
    ensures forall k | 0 <= k < |Lines(s)| :: NoNewline(Lines(s)[k])
    decreases |s|
  {
    if |s| > 0 && LineEnd(s) < |s| {
      LinesHaveNoNewline(s[LineEnd(s) + 1..]);
    }
  }

  /** `ReadSource`: the text path of the two-file constructor copies a stream line by line. */
  method ReadSource(lines: seq<string>) returns (source: string)
    ensures source == Joined(lines)
  {
    source := "";
    for i := 0 to |lines|
      invariant source == Joined(lines[..i])
    {
      assert lines[..i + 1] == lines[..i] + [lines[i]];
      JoinedAppend(lines[..i], lines[i]);
      source := source + lines[i] + "\n";
    }
    assert lines[..|lines|] == lines;
  }

  // ---------------------------------------------------------------------
  // The `#shader` section splitter
  // ---------------------------------------------------------------------

  /** The section lines are being copied into: `NONE`, `VERTEX` or `FRAGMENT`. */
  datatype Section = NoSection | Vertex | Fragment

  const SHADER_DIRECTIVE: string := "#shader"

  predicate IsDirective(line: string) {
    Contains(line, SHADER_DIRECTIVE)
  }

  /** The section a directive line selects: vertex before fragment, otherwise unchanged. */
  function Selected(line: string, current: Section): Section {
    if Contains(line, "vertex") then Vertex
    else if Contains(line, "fragment") then Fragment
    else current
  }

  /** The section in force after the first `n` lines. */
  function SectionAfter(lines: seq<string>, n: nat): Section
    requires n <= |lines|
  {
    if n == 0 then NoSection
    else
      var s := SectionAfter(lines, n - 1);
      if IsDirective(lines[n - 1]) then Selected(lines[n - 1], s) else s
  }

  /** No content line comes before the first directive that selects a section. */
  ghost predicate WellSectioned(lines: seq<string>) {
    forall i | 0 <= i < |lines| :: !IsDirective(lines[i]) ==> SectionAfter(lines, i) != NoSection
  }

  /** The content lines among the first `n` that fall in section `sec`, in order. */
  function ContentIn(lines: seq<string>, n: nat, sec: Section): (r: seq<string>)
    requires n <= |lines|
    ensures forall k | 0 <= k < |r| :: !IsDirective(r[k]) && r[k] in lines[..n]
  {
    if n == 0 then []
    else
      var prev := ContentIn(lines, n - 1, sec);
      assert forall k | 0 <= k < |prev| :: prev[k] in lines[..n] by {
        assert lines[..n - 1] <= lines[..n];
      }
      if !IsDirective(lines[n - 1]) && SectionAfter(lines, n - 1) == sec then prev + [lines[n - 1]] else prev
  }

  /** What `ss[sec]` holds after the first `n` lines. */
  function SourceUpTo(lines: seq<string>, n: nat, sec: Section): string
    requires n <= |lines|
  {
    if n == 0 then ""
    else
      var prev := SourceUpTo(lines, n - 1, sec);
      if !IsDirective(lines[n - 1]) && SectionAfter(lines, n - 1) == sec then prev + lines[n - 1] + "\n" else prev
  }

  /**
   * A section's source is its content lines, each with a trailing newline,
   * in input order; no directive line is ever copied.
   */
  lemma {:induction false} SourceIsContent(lines: seq<string>, n: nat, sec: Section)
    requires n <= |lines|
    ensures SourceUpTo(lines, n, sec) == Joined(ContentIn(lines, n, sec))
  {
    if n > 0 {
      SourceIsContent(lines, n - 1, sec);
      JoinedAppend(ContentIn(lines, n - 1, sec), lines[n - 1]);
    }
  }

  /** The two sources `ParseShader` hands to program creation. */
  datatype ShaderProgramSource = ShaderProgramSource(vertexSource: string, fragmentSource: string)

  /**
   * The `while (getline ...)` loop of `ParseShader` over a `.shader` file:
   * directive lines switch the section, every other line goes to the
   * current section.
   */
  method SplitSections(lines: seq<string>) returns (source: ShaderProgramSource)
    requires WellSectioned(lines)
    ensures source.vertexSource == SourceUpTo(lines, |lines|, Vertex)
    ensures source.fragmentSource == SourceUpTo(lines, |lines|, Fragment)
  {
    var section := NoSection;
    var vertex := "";
    var fragment := "";
    for i := 0 to |lines|
      invariant section == SectionAfter(lines, i)
      invariant vertex == SourceUpTo(lines, i, Vertex) && fragment == SourceUpTo(lines, i, Fragment)
    {
      var line := lines[i];
      if Contains(line, SHADER_DIRECTIVE) {
        if Contains(line, "vertex") {
          section := Vertex;
        } else if Contains(line, "fragment") {
          section := Fragment;
        }
      } else if section == Vertex {
        vertex := vertex + line + "\n";
      } else {
        fragment := fragment + line + "\n";
      }
    }
    source := ShaderProgramSource(vertex, fragment);
  }

  const VERTEX_HEADER: string := "#shader vertex"
  const FRAGMENT_HEADER: string := "#shader fragment"

  lemma HeadersAreDirectives()
    ensures IsDirective(VERTEX_HEADER) && Selected(VERTEX_HEADER, NoSection) == Vertex
    ensures IsDirective(FRAGMENT_HEADER) && forall s :: Selected(FRAGMENT_HEADER, s) == Fragment
  {
    assert VERTEX_HEADER[0..7] == SHADER_DIRECTIVE;
    ContainsAt(VERTEX_HEADER, SHADER_DIRECTIVE, 0);
    assert VERTEX_HEADER[8..14] == "vertex";
    ContainsAt(VERTEX_HEADER, "vertex", 8);
    assert FRAGMENT_HEADER[0..7] == SHADER_DIRECTIVE;
    ContainsAt(FRAGMENT_HEADER, SHADER_DIRECTIVE, 0);
    assert FRAGMENT_HEADER[8..16] == "fragment";
    ContainsAt(FRAGMENT_HEADER, "fragment", 8);
    FragmentHeaderHasNoVertex();
  }

  lemma FragmentHeaderHasNoVertex()
    ensures !Contains(FRAGMENT_HEADER, "vertex")
  {
    assert forall k | 0 <= k < |FRAGMENT_HEADER| :: FRAGMENT_HEADER[k] != 'v';
    LacksFirstChar(FRAGMENT_HEADER, "vertex");
  }

  /** Lines after the first `n`, none of them a directive, stay in the section then in force. */
  lemma {:induction false} PlainLinesKeepSection(lines: seq<string>, m: nat, n: nat)
    requires m <= n <= |lines|
    requires forall k | m <= k < n :: !IsDirective(lines[k])
    ensures SectionAfter(lines, n) == SectionAfter(lines, m)
    decreases n
  {
    if n > m {
      PlainLinesKeepSection(lines, m, n - 1);
    }
  }

  /**
   * A file laid out as `#shader vertex`, the vertex lines, `#shader
   * fragment`, the fragment lines splits back into exactly those lines.
   */
  lemma SplitsAsLaidOut(vl: seq<string>, fl: seq<string>)
    requires forall k | 0 <= k < |vl| :: !IsDirective(vl[k])
    requires forall k | 0 <= k < |fl| :: !IsDirective(fl[k])
    ensures var lines := [VERTEX_HEADER] + vl + [FRAGMENT_HEADER] + fl;
            && WellSectioned(lines)
            && SourceUpTo(lines, |lines|, Vertex) == Joined(vl)
            && SourceUpTo(lines, |lines|, Fragment) == Joined(fl)
  {
    HeadersAreDirectives();
    SplitsWithHeaders(VERTEX_HEADER, FRAGMENT_HEADER, vl, fl);
  }

  /** The same, for any pair of headers that select the vertex and then the fragment section. */
  lemma SplitsWithHeaders(vh: string, fh: string, vl: seq<string>, fl: seq<string>)
    requires IsDirective(vh) && Selected(vh, NoSection) == Vertex
    requires IsDirective(fh) && Selected(fh, Vertex) == Fragment
    requires forall k | 0 <= k < |vl| :: !IsDirective(vl[k])
    requires forall k | 0 <= k < |fl| :: !IsDirective(fl[k])
    ensures var lines := [vh] + vl + [fh] + fl;
            && WellSectioned(lines)
            && SourceUpTo(lines, |lines|, Vertex) == Joined(vl)
            && SourceUpTo(lines, |lines|, Fragment) == Joined(fl)
  {
    var lines := [vh] + vl + [fh] + fl;
    var f := |vl| + 1;
    assert lines[0] == vh && lines[f] == fh;
    assert SectionAfter(lines, 1) == Vertex;
    forall i | 1 <= i <= f
      ensures SectionAfter(lines, i) == Vertex
    {
      PlainLinesKeepSection(lines, 1, i);
    }
    assert SectionAfter(lines, f + 1) == Fragment;
    forall i | f + 1 <= i <= |lines|
      ensures SectionAfter(lines, i) == Fragment
    {
      PlainLinesKeepSection(lines, f + 1, i);
    }
    SourceIsContent(lines, |lines|, Vertex);
    SourceIsContent(lines, |lines|, Fragment);
    ContentLaidOut(lines, vh, fh, vl, fl);
  }

  lemma ContentLaidOut(lines: seq<string>, vh: string, fh: string, vl: seq<string>, fl: seq<string>)
    requires lines == [vh] + vl + [fh] + fl
    requires IsDirective(vh) && IsDirective(fh)
    requires forall k | 0 <= k < |vl| :: !IsDirective(vl[k])
    requires forall k | 0 <= k < |fl| :: !IsDirective(fl[k])
    requires forall i | 1 <= i <= |vl| :: SectionAfter(lines, i) == Vertex
    requires forall i | |vl| + 2 <= i <= |lines| :: SectionAfter(lines, i) == Fragment
    ensures ContentIn(lines, |lines|, Vertex) == vl
    ensures ContentIn(lines, |lines|, Fragment) == fl
  {
    FragmentPart(lines, vh, fh, vl, fl, |lines|);
    assert fl[..|lines| - |vl| - 2] == fl;
  }

  lemma {:induction false} VertexPart(lines: seq<string>, vh: string, fh: string, vl: seq<string>, fl: seq<string>, i: nat)
    requires lines == [vh] + vl + [fh] + fl
    requires IsDirective(vh)
    requires forall k | 0 <= k < |vl| :: !IsDirective(vl[k])
    requires forall j | 1 <= j <= |vl| :: SectionAfter(lines, j) == Vertex
    requires 1 <= i <= |vl| + 1
    ensures ContentIn(lines, i, Vertex) == vl[..i - 1] && ContentIn(lines, i, Fragment) == []
  {
    if i > 1 {
      VertexPart(lines, vh, fh, vl, fl, i - 1);
      assert lines[i - 1] == vl[i - 2];
      assert vl[..i - 1] == vl[..i - 2] + [vl[i - 2]];
    }
  }

  lemma {:induction false} FragmentPart(lines: seq<string>, vh: string, fh: string, vl: seq<string>, fl: seq<string>, i: nat)
    requires lines == [vh] + vl + [fh] + fl
    requires IsDirective(vh) && IsDirective(fh)
    requires forall k | 0 <= k < |vl| :: !IsDirective(vl[k])
    requires forall k | 0 <= k < |fl| :: !IsDirective(fl[k])
    requires forall j | 1 <= j <= |vl| :: SectionAfter(lines, j) == Vertex
    requires forall j | |vl| + 2 <= j <= |lines| :: SectionAfter(lines, j) == Fragment
    requires |vl| + 2 <= i <= |lines|
    ensures ContentIn(lines, i, Vertex) == vl && ContentIn(lines, i, Fragment) == fl[..i - |vl| - 2]
  {
    var f := |vl| + 1;
    if i == f + 1 {
      VertexPart(lines, vh, fh, vl, fl, f);
      assert vl[..f - 1] == vl;
    } else {
      FragmentPart(lines, vh, fh, vl, fl, i - 1);
      assert lines[i - 1] == fl[i - f - 2];
      assert fl[..i - f - 1] == fl[..i - f - 2] + [fl[i - f - 2]];
    }
  }

  // ---------------------------------------------------------------------
  // File names and extensions
  // ---------------------------------------------------------------------

  /** The last position of `s` holding a character of `cs`. */
  function LastIn(s: string, cs: set<char>): (r: Option<nat>)
    ensures r.Some? ==> r.value < |s| && s[r.value] in cs && forall j | r.value < j < |s| :: s[j] !in cs
    ensures r.None? ==> forall j | 0 <= j < |s| :: s[j] !in cs
  {
    if |s| == 0 then None
    else if s[|s| - 1] in cs then Some(|s| - 1)
    else LastIn(s[..|s| - 1], cs)
  }

  lemma {:induction false} LastInAppend(a: string, b: string, cs: set<char>)
    requires forall k | 0 <= k < |b| :: b[k] !in cs
    ensures LastIn(a + b, cs) == LastIn(a, cs)
  {
    if |b| > 0 {
      assert (a + b)[..|a + b| - 1] == a + b[..|b| - 1];
      LastInAppend(a, b[..|b| - 1], cs);
    } else {
      assert a + b == a;
    }
  }

  const SEPARATORS: set<char> := {'/', '\\'}

  /** `path::filename` (Windows separators, no root name): what follows the last directory separator. */
  function FileName(path: string): string {
    match LastIn(path, SEPARATORS)
    case Some(i) => path[i + 1..]
    case None => path
  }

  /**
   * `path::extension` (Windows separators, no root name): the file name
   * from its last period on, except for
   * `.` and `..` and for a file name whose only period is its first
   * character, which have none.
   */
  function Extension(path: string): string {
    var f := FileName(path);
    if f == "." || f == ".." then ""
    else
      match LastIn(f, {'.'})
      case Some(i) => if i == 0 then "" else f[i..]
      case None => ""
  }

  /** A suffix that may follow the period of an extension: no period and no separator. */
  predicate ExtensionBody(e: string) {
    |e| > 0 && forall k | 0 <= k < |e| :: e[k] != '.' && e[k] !in SEPARATORS
  }

  /** An extension: a period followed by a non-empty suffix with no period and no separator. */
  predicate IsExtension(ext: string) {
    |ext| > 1 && ext[0] == '.' && forall k | 1 <= k < |ext| :: ext[k] != '.' && ext[k] !in SEPARATORS
  }

  /** A path that does not end in a separator, extended by an extension, has that extension. */
  lemma ExtensionOfAppended(base: string, ext: string)
    requires |base| > 0 && base[|base| - 1] !in SEPARATORS && IsExtension(ext)
    ensures Extension(base + ext) == ext
  {
    var p := base + ext;
    LastInAppend(base, ext, SEPARATORS);
    var fb := FileName(base);
    assert |fb| > 0;
    assert FileName(p) == fb + ext by {
      match LastIn(base, SEPARATORS)
      case Some(i) =>
        assert p[i + 1..] == base[i + 1..] + ext;
      case None =>
    }
    var f := fb + ext;
    var e := ext[1..];
    assert ext == "." + e;
    assert f == (fb + ".") + e;
    LastInAppend(fb + ".", e, {'.'});
    assert LastIn(fb + ".", {'.'}) == Some(|fb|);
    assert f[|fb|..] == ext;
  }

  /** What the two-file constructor goes on to build. */
  datatype PairProgram = FromSources(source: ShaderProgramSource)
                       | FromSpirv(vertexSpv: seq<byte>, fragmentSpv: seq<byte>)
                       | NoProgram

  /** The lines of a file, or nothing when it could not be opened. */
  type TextFile = Option<seq<string>>

  /** The bytes of a file, or nothing when it could not be opened. */
  type BinaryFile = Option<seq<byte>>

  /**
   * The two-file constructor: `.vert` and `.frag` are read as text, an
   * unopenable file reading as empty; `.spv` and `.spv` are read as SPIR-V,
   * where an unopenable file throws; any other pair builds nothing and the
   * program id stays 0.
   */
  function PairDispatch(vertPath: string, fragPath: string, vertText: TextFile, fragText: TextFile,
                        vertSpv: BinaryFile, fragSpv: BinaryFile): (r: Result<PairProgram>)
    ensures r.Success? && r.value.FromSources? <==> Extension(vertPath) == ".vert" && Extension(fragPath) == ".frag"
    ensures r.Success? && r.value.FromSources? ==>
              r.value.source.vertexSource == (if vertText.Some? then Joined(vertText.value) else "") &&
              r.value.source.fragmentSource == (if fragText.Some? then Joined(fragText.value) else "")
    ensures (r.Failure? || r.value.FromSpirv?) <==> Extension(vertPath) == ".spv" && Extension(fragPath) == ".spv"
    ensures r.Failure? <==> Extension(vertPath) == ".spv" && Extension(fragPath) == ".spv" && (vertSpv.None? || fragSpv.None?)
    ensures r.Success? && r.value.FromSpirv? ==> r.value == FromSpirv(vertSpv.value, fragSpv.value)
  {
    if Extension(vertPath) == ".vert" && Extension(fragPath) == ".frag" then
      var vs := if vertText.Some? then Joined(vertText.value) else "";
      var fs := if fragText.Some? then Joined(fragText.value) else "";
      Success(FromSources(ShaderProgramSource(vs, fs)))
    else if Extension(vertPath) == ".spv" && Extension(fragPath) == ".spv" then
      if vertSpv.None? then Failure("Failed to open SPIR-V file: " + vertPath)
      else if fragSpv.None? then Failure("Failed to open SPIR-V file: " + fragPath)
      else Success(FromSpirv(vertSpv.value, fragSpv.value))
    else Success(NoProgram)
  }

  /**
   * With file names `base + ext`, the pair is read as text exactly for
   * `.vert` with `.frag`, as SPIR-V exactly for `.spv` with `.spv`, and
   * otherwise nothing is built and the program id stays 0.
   */
  lemma DispatchByName(vertBase: string, vertExt: string, fragBase: string, fragExt: string,
                       vertText: TextFile, fragText: TextFile, vertSpv: BinaryFile, fragSpv: BinaryFile)
    requires |vertBase| > 0 && vertBase[|vertBase| - 1] !in SEPARATORS && IsExtension(vertExt)
    requires |fragBase| > 0 && fragBase[|fragBase| - 1] !in SEPARATORS && IsExtension(fragExt)
    ensures var r := PairDispatch(vertBase + vertExt, fragBase + fragExt, vertText, fragText, vertSpv, fragSpv);
            && (r.Success? && r.value.FromSources? <==> vertExt == ".vert" && fragExt == ".frag")
            && (r.Success? && r.value.FromSpirv? <==>
                  vertExt == ".spv" && fragExt == ".spv" && vertSpv.Some? && fragSpv.Some?)
            && (r == Success(NoProgram) <==> !(vertExt == ".vert" && fragExt == ".frag") && !(vertExt == ".spv" && fragExt == ".spv"))
  {
    ExtensionOfAppended(vertBase, vertExt);
    ExtensionOfAppended(fragBase, fragExt);
  }

  // ---------------------------------------------------------------------
  // The single-file loader
  // ---------------------------------------------------------------------

  /** What `ParseShader` goes on to build from one file. */
  datatype FileProgram = FromSections(source: ShaderProgramSource) | FromSlang(text: string) | NotParsed

  /**
   * `ParseShader`: a file that cannot be opened throws; a `.shader` file is
   * split into its two sections; a `.slang` file is handed whole to the
   * Slang compiler; any other extension builds nothing.
   */
  method ParseShader(path: string, file: Option<string>) returns (r: Result<FileProgram>)
    requires file.Some? && Extension(path) == ".shader" ==> WellSectioned(Lines(file.value))
    ensures file.None? ==> r == Failure("Failed to open shader file: " + path)
    ensures file.Some? && Extension(path) == ".shader" ==>
              var lines := Lines(file.value);
              r == Success(FromSections(ShaderProgramSource(SourceUpTo(lines, |lines|, Vertex),
                                                            SourceUpTo(lines, |lines|, Fragment))))
    ensures file.Some? && Extension(path) == ".slang" ==> r == Success(FromSlang(file.value))
    ensures file.Some? && Extension(path) != ".shader" && Extension(path) != ".slang" ==> r == Success(NotParsed)
  {
    if file.None? {
      return Failure("Failed to open shader file: " + path);
    }
    var ext := Extension(path);
    if ext == ".shader" {
      var source := SplitSections(Lines(file.value));
      r := Success(FromSections(source));
    } else if ext == ".slang" {
      r := Success(FromSlang(file.value));
    } else {
      r := Success(NotParsed);
    }
  }

  // ---------------------------------------------------------------------
  // SPIR-V words
  // ---------------------------------------------------------------------

  type byte = x: int | 0 <= x < 0x100
  type word = x: int | 0 <= x < 0x1_0000_0000

  /** Four bytes read as one little-endian 32-bit word. */
  function WordOf(b0: byte, b1: byte, b2: byte, b3: byte): word {
    b0 + 0x100 * (b1 + 0x100 * (b2 + 0x100 * b3))
  }

  /** The `memcpy` of a byte buffer into 32-bit words on a little-endian machine. */
  function WordsOf(bytes: seq<byte>): (ws: seq<word>)
    requires |bytes| % 4 == 0
    ensures |ws| == |bytes| / 4
    decreases |bytes|
  {
    if |bytes| == 0 then []
    else [WordOf(bytes[0], bytes[1], bytes[2], bytes[3])] + WordsOf(bytes[4..])
  }

  /** The four bytes of a word, lowest first. */
  function BytesOfWord(w: word): seq<byte> {
    var w1 := w / 0x100;
    var w2 := w1 / 0x100;
    [w % 0x100, w1 % 0x100, w2 % 0x100, w2 / 0x100]
  }

  function BytesOf(ws: seq<word>): (bytes: seq<byte>)
    ensures |bytes| == 4 * |ws|
  {
    if |ws| == 0 then [] else BytesOfWord(ws[0]) + BytesOf(ws[1..])
  }

  lemma SplitByte(x: int, lo: int, hi: int)
    requires 0 <= lo < 0x100 && x == lo + 0x100 * hi
    ensures x % 0x100 == lo && x / 0x100 == hi
  {
  }

  lemma WordBytes(b0: byte, b1: byte, b2: byte, b3: byte)
    ensures BytesOfWord(WordOf(b0, b1, b2, b3)) == [b0, b1, b2, b3]
  {
    var w := WordOf(b0, b1, b2, b3);
    SplitByte(w, b0, b1 + 0x100 * (b2 + 0x100 * b3));
    SplitByte(w / 0x100, b1, b2 + 0x100 * b3);
    SplitByte(w / 0x100 / 0x100, b2, b3);
  }

  /** Copying bytes into words keeps every byte. */
  lemma {:induction false} BytesOfWordsOf(bytes: seq<byte>)
    requires |bytes| % 4 == 0
    ensures BytesOf(WordsOf(bytes)) == bytes
    decreases |bytes|
  {
    if |bytes| > 0 {
      WordBytes(bytes[0], bytes[1], bytes[2], bytes[3]);
      BytesOfWordsOf(bytes[4..]);
      assert WordsOf(bytes)[1..] == WordsOf(bytes[4..]);
      assert bytes == bytes[..4] + bytes[4..];
    }
  }

  const INVALID_SPIRV: string := "Invalid SPIR-V: empty or size not multiple of 4"

  /**
   * The size check of `ConvertSPIRVToGLSL`: empty input, or input whose
   * length is not a multiple of 4, is rejected; otherwise it becomes
   * `|bytes| / 4` words holding exactly those bytes.
   */
  function SpirvWords(bytes: seq<byte>): (r: Result<seq<word>>)
    ensures r.Success? <==> |bytes| > 0 && |bytes| % 4 == 0
    ensures r.Failure? ==> r.error == INVALID_SPIRV
    ensures r.Success? ==> |r.value| == |bytes| / 4 && BytesOf(r.value) == bytes
  {
    if |bytes| == 0 || |bytes| % 4 != 0 then Failure(INVALID_SPIRV)
    else
      BytesOfWordsOf(bytes);
      Success(WordsOf(bytes))
  }

  // ---------------------------------------------------------------------
  // Resource renaming
  // ---------------------------------------------------------------------

  predicate IsDigit(c: char) {
    '0' <= c <= '9'
  }

  predicate AllDigits(s: string) {
    forall k | 0 <= k < |s| :: IsDigit(s[k])
  }

  function DigitChar(d: nat): (c: char)
    requires d < 10
    ensures IsDigit(c)
  {
    ('0' as int + d) as char
  }

  /** `std::to_string` of an unsigned value: its decimal digits, without leading zeros. */
  function DecimalString(n: nat): (s: string)
    ensures |s| > 0 && AllDigits(s) && (|s| > 1 ==> s[0] != '0')
  {
    if n < 10 then [DigitChar(n)] else DecimalString(n / 10) + [DigitChar(n % 10)]
  }

  /** The value of a string of decimal digits. */
  function DecimalValue(s: string): nat
    requires AllDigits(s)
  {
    if |s| == 0 then 0 else 10 * DecimalValue(s[..|s| - 1]) + (s[|s| - 1] as int - '0' as int)
  }

  /** Reading the decimal string of a value gives the value back. */
  lemma {:induction false} DecimalRoundTrip(n: nat)
    ensures DecimalValue(DecimalString(n)) == n
  {
    if n >= 10 {
      DecimalRoundTrip(n / 10);
      var s := DecimalString(n);
      assert s[..|s| - 1] == DecimalString(n / 10);
    }
  }

  function StagePrefix(isVertexShader: bool): string {
    if isVertexShader then "vs_" else "fs_"
  }

  /** The unique name a resource is given: stage prefix, its name, `_b` and its binding. */
  function UniqueName(isVertexShader: bool, name: string, binding: nat): string {
    StagePrefix(isVertexShader) + name + "_b" + DecimalString(binding)
  }

  /** How many digits end `s`. */
  function DigitRun(s: string): (n: nat)
    ensures n <= |s|
  {
    if |s| == 0 || !IsDigit(s[|s| - 1]) then 0 else DigitRun(s[..|s| - 1]) + 1
  }

  lemma {:induction false} DigitRunOf(p: string, d: string)
    requires |p| > 0 && !IsDigit(p[|p| - 1]) && AllDigits(d)
    ensures DigitRun(p + d) == |d|
  {
    if |d| == 0 {
      assert p + d == p;
    } else {
      assert (p + d)[..|p + d| - 1] == p + d[..|d| - 1];
      DigitRunOf(p, d[..|d| - 1]);
    }
  }

  /** Two digit strings that end one string right after a `b` are the same suffix. */
  lemma DigitSuffixUnique(p1: string, d1: string, p2: string, d2: string)
    requires |p1| > 0 && p1[|p1| - 1] == 'b' && |p2| > 0 && p2[|p2| - 1] == 'b'
    requires AllDigits(d1) && AllDigits(d2) && p1 + d1 == p2 + d2
    ensures d1 == d2 && p1 == p2
  {
    var s := p1 + d1;
    DigitRunOf(p1, d1);
    DigitRunOf(p2, d2);
    assert d1 == s[|p1|..] == d2;
    assert p1 == s[..|p1|] == p2;
  }

  /**
   * Renaming loses nothing: the stage, the name and the binding can all be
   * read back from the unique name, so a vertex and a fragment resource
   * never share one, and neither do two resources of one stage that differ
   * in name or binding.
   */
  lemma UniqueNameInjective(v1: bool, n1: string, b1: nat, v2: bool, n2: string, b2: nat)
    requires UniqueName(v1, n1, b1) == UniqueName(v2, n2, b2)
    ensures v1 == v2 && n1 == n2 && b1 == b2
  {
    var p1 := StagePrefix(v1) + n1 + "_b";
    var p2 := StagePrefix(v2) + n2 + "_b";
    DigitSuffixUnique(p1, DecimalString(b1), p2, DecimalString(b2));
    DecimalRoundTrip(b1);
    DecimalRoundTrip(b2);
    assert StagePrefix(v1) + n1 == p1[..|p1| - 2] == p2[..|p2| - 2] == StagePrefix(v2) + n2;
    assert StagePrefix(v1) == (StagePrefix(v1) + n1)[..3];
    assert StagePrefix(v2) == (StagePrefix(v2) + n2)[..3];
    assert n1 == (StagePrefix(v1) + n1)[3..];
    assert n2 == (StagePrefix(v2) + n2)[3..];
  }

  /** A reflected resource: its id, the id of its type, its name and its binding decoration. */
  datatype Resource = Resource(id: nat, baseTypeId: nat, name: string, binding: nat)

  /** One `set_name` call: the id renamed and its new name. */
  datatype Renaming = Renaming(id: nat, newName: string)

  /** Storage and uniform buffers rename the resource and its type (with `_type` appended). */
  function BufferRenames(isVertexShader: bool, rs: seq<Resource>): (out: seq<Renaming>)
    ensures |out| == 2 * |rs|
    ensures forall k | 0 <= k < |rs| ::
              out[2 * k] == Renaming(rs[k].id, UniqueName(isVertexShader, rs[k].name, rs[k].binding)) &&
              out[2 * k + 1] == Renaming(rs[k].baseTypeId, UniqueName(isVertexShader, rs[k].name, rs[k].binding) + "_type")
  {
    if |rs| == 0 then []
    else
      var u := UniqueName(isVertexShader, rs[0].name, rs[0].binding);
      [Renaming(rs[0].id, u), Renaming(rs[0].baseTypeId, u + "_type")] + BufferRenames(isVertexShader, rs[1..])
  }

  /** Sampled images rename the resource only. */
  function ImageRenames(isVertexShader: bool, rs: seq<Resource>): (out: seq<Renaming>)
    ensures |out| == |rs|
    ensures forall k | 0 <= k < |rs| :: out[k] == Renaming(rs[k].id, UniqueName(isVertexShader, rs[k].name, rs[k].binding))
  {
    if |rs| == 0 then [] else [Renaming(rs[0].id, UniqueName(isVertexShader, rs[0].name, rs[0].binding))] + ImageRenames(isVertexShader, rs[1..])
  }

  /** The `set_name` calls of `ConvertSPIRVToGLSL`, in order: storage buffers, uniform buffers, sampled images. */
  function Renames(isVertexShader: bool, storage: seq<Resource>, uniform: seq<Resource>, sampled: seq<Resource>): seq<Renaming> {
    BufferRenames(isVertexShader, storage) + BufferRenames(isVertexShader, uniform) + ImageRenames(isVertexShader, sampled)
  }

  lemma UniqueNamePrefixed(isVertexShader: bool, name: string, binding: nat)
    ensures StagePrefix(isVertexShader) <= UniqueName(isVertexShader, name, binding)
    ensures StagePrefix(isVertexShader) <= UniqueName(isVertexShader, name, binding) + "_type"
  {
    var rest := name + "_b" + DecimalString(binding);
    assert UniqueName(isVertexShader, name, binding) == StagePrefix(isVertexShader) + rest;
    assert UniqueName(isVertexShader, name, binding) + "_type" == StagePrefix(isVertexShader) + (rest + "_type");
  }

  lemma BufferRenamesCarryStage(isVertexShader: bool, rs: seq<Resource>)
    ensures forall k | 0 <= k < |BufferRenames(isVertexShader, rs)| ::
              StagePrefix(isVertexShader) <= BufferRenames(isVertexShader, rs)[k].newName
  {
    var out := BufferRenames(isVertexShader, rs);
    forall k | 0 <= k < |out| ensures StagePrefix(isVertexShader) <= out[k].newName {
      UniqueNamePrefixed(isVertexShader, rs[k / 2].name, rs[k / 2].binding);
      assert k == 2 * (k / 2) || k == 2 * (k / 2) + 1;
    }
  }

  lemma ImageRenamesCarryStage(isVertexShader: bool, rs: seq<Resource>)
    ensures forall k | 0 <= k < |ImageRenames(isVertexShader, rs)| ::
              StagePrefix(isVertexShader) <= ImageRenames(isVertexShader, rs)[k].newName
  {
    var out := ImageRenames(isVertexShader, rs);
    forall k | 0 <= k < |out| ensures StagePrefix(isVertexShader) <= out[k].newName {
      UniqueNamePrefixed(isVertexShader, rs[k].name, rs[k].binding);
    }
  }

  /** Every name given while converting one stage starts with that stage's prefix. */
  lemma RenamesCarryStage(isVertexShader: bool, storage: seq<Resource>, uniform: seq<Resource>, sampled: seq<Resource>)
    ensures forall k | 0 <= k < |Renames(isVertexShader, storage, uniform, sampled)| ::
              StagePrefix(isVertexShader) <= Renames(isVertexShader, storage, uniform, sampled)[k].newName
  {
    var b1 := BufferRenames(isVertexShader, storage);
    var b2 := BufferRenames(isVertexShader, uniform);
    var im := ImageRenames(isVertexShader, sampled);
    BufferRenamesCarryStage(isVertexShader, storage);
    BufferRenamesCarryStage(isVertexShader, uniform);
    ImageRenamesCarryStage(isVertexShader, sampled);
    var all := Renames(isVertexShader, storage, uniform, sampled);
    forall k | 0 <= k < |all| ensures StagePrefix(isVertexShader) <= all[k].newName {
      if k < |b1| {
        assert all[k] == b1[k];
      } else if k < |b1| + |b2| {
        assert all[k] == b2[k - |b1|];
      } else {
        assert all[k] == im[k - |b1| - |b2|];
      }
    }
  }
}
