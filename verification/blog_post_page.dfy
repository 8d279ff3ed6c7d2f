/**
 * The blog post page: the mock post table with its fallback record, and the
 * line-by-line renderer that turns a post's content into headings, list items
 * and paragraphs.
 */
module BlogPostPage {
  import opened Common

  /** A post record as the page reads it. */
  datatype Post = Post(title: string, category: string, date: string, image: string, content: string)

  const CarnesSlug := "promocao-carnes-especiais"
  const MovimenteSlug := "movimente-se-fevereiro"

  const CarnesContent: string :=
    "\n# Aproveite nossa promoção especial de carnes!\n\nDurante todo o mês de fevereiro, estamos com descontos incríveis em cortes nobres selecionados.\n\n## Destaques da Promoção\n\n- **Picanha Premium**: até 30% de desconto\n- **Alcatra de primeira**: até 25% de desconto  \n- **Filé Mignon**: até 20% de desconto\n\n### Como aproveitar?\n\nVisite qualquer uma de nossas lojas e apresente este cupom na seção de açougue. Válido até 28/02/2026.\n\n**Não perca essa oportunidade!** Carnes fresquíssimas, selecionadas diariamente pelos nossos especialistas.\n      "

  const MovimenteContent: string :=
    "\n# Cuide da sua saúde com o Ana Risorlange!\n\nEstamos lançando o programa **Movimente-se**, com aulas gratuitas de atividade física para toda a comunidade.\n\n## Programação\n\n**Segundas e Quartas-feiras**  \n- **Horário**: 18h às 19h\n- **Local**: Estacionamento da Loja Bom Jardim\n- **Professores**: Equipe qualificada\n\n### Modalidades\n\n1. Zumba\n2. Ginástica funcional\n3. Alongamento e relaxamento\n\nTraga roupa confortável e muita disposição! As vagas são limitadas.\n      "

  const CarnesPost := Post("Promoção Especial de Carnes Premium", "Campanhas", "2026-02-05", "/cards/card_cartao.jpeg", CarnesContent)
  const MovimentePost := Post("Movimente-se: Aulas de Ritmos e Ginástica", "Eventos", "2026-02-03", "/cards/card_clube.png", MovimenteContent)

  /** The own properties of the mock post table. */
  const StoredPosts: map<string, Post> := map[CarnesSlug := CarnesPost, MovimenteSlug := MovimentePost]

  /** The record shown for every slug the table does not hold. */
  const FallbackPost := Post("Post não encontrado", "Geral", "2026-01-01", "/cards/card_app.jpeg", "Conteúdo não disponível")

  // ---------------------------------------------------------------------------
  // Post lookup
  // ---------------------------------------------------------------------------

  /** The post shown for `slug`: the stored record, or the fallback record. */
  function GetPostBySlug(slug: string): (p: Post)
    ensures p == FallbackPost <==> slug != CarnesSlug && slug != MovimenteSlug
    ensures p.content != ""
  {
    if slug in StoredPosts then StoredPosts[slug] else FallbackPost
  }

  /** Both stored slugs give their own records, with their titles and categories. */
  lemma StoredSlugsGiveStoredPosts()
    ensures GetPostBySlug(CarnesSlug).title == "Promoção Especial de Carnes Premium"
    ensures GetPostBySlug(CarnesSlug).category == "Campanhas"
    ensures GetPostBySlug(CarnesSlug).content == CarnesContent
    ensures GetPostBySlug(MovimenteSlug).title == "Movimente-se: Aulas de Ritmos e Ginástica"
    ensures GetPostBySlug(MovimenteSlug).category == "Eventos"
    ensures GetPostBySlug(MovimenteSlug).content == MovimenteContent
  {
  }

  /** Every other slug gives the fallback record. */
  lemma OtherSlugsGiveFallback(slug: string)
    requires slug != CarnesSlug && slug != MovimenteSlug
    ensures GetPostBySlug(slug).title == "Post não encontrado"
    ensures GetPostBySlug(slug).category == "Geral"
    ensures GetPostBySlug(slug).content == "Conteúdo não disponível"
  {
  }

  // The lookup as written indexes a plain JavaScript object literal, so a slug
  // that names a member every object inherits (`constructor`, `toString`, ...)
  // yields that member, which is truthy, and the fallback is skipped.

  /** Names every object literal inherits from `Object.prototype`. */
  const InheritedMembers: set<string> := {
    "constructor", "toString", "toLocaleString", "valueOf", "hasOwnProperty",
    "isPrototypeOf", "propertyIsEnumerable", "__proto__", "__defineGetter__",
    "__defineSetter__", "__lookupGetter__", "__lookupSetter__"
  }

  /** What `posts[slug] || fallback` evaluates to. */
  datatype LookupValue = StoredValue(post: Post) | InheritedValue(name: string)

  /** The lookup exactly as written, inherited members included. */
  function GetPostBySlugAsWritten(slug: string): (v: LookupValue)
    ensures v.InheritedValue? <==> slug in InheritedMembers
  {
    if slug in StoredPosts then StoredValue(StoredPosts[slug])
    else if slug in InheritedMembers then InheritedValue(slug)
    else StoredValue(FallbackPost)
  }

  /** The slug `constructor` yields no post at all, so `post.content` is missing. */
  lemma AsWrittenConstructorIsNoPost()
    ensures GetPostBySlugAsWritten("constructor") == InheritedValue("constructor")
    ensures GetPostBySlug("constructor") == FallbackPost
  {
  }

  /** Everywhere else the lookup as written agrees with the corrected one. */
  lemma AsWrittenAgreesOffInheritedNames(slug: string)
    requires slug !in InheritedMembers
    ensures GetPostBySlugAsWritten(slug) == StoredValue(GetPostBySlug(slug))
  {
  }

  // ---------------------------------------------------------------------------
  // String helpers with JavaScript semantics
  // ---------------------------------------------------------------------------

  predicate StartsWith(s: string, prefix: string) {
    |prefix| <= |s| && s[..|prefix|] == prefix
  }

  predicate EndsWith(s: string, suffix: string) {
    |suffix| <= |s| && s[|s| - |suffix|..] == suffix
  }

  /** The line terminators of ECMAScript; the regex `.` matches anything else. */
  predicate IsLineTerminator(c: char) {
    c == '\n' || c == '\r' || c == '\U{2028}' || c == '\U{2029}'
  }

  /** What `String.prototype.trim` removes: white space and line terminators. */
  predicate IsJsWhitespace(c: char) {
    || c == '\t' || c == '\U{B}' || c == '\U{C}' || c == ' ' || c == '\U{A0}' || c == '\U{FEFF}'
    || c == '\U{1680}' || ('\U{2000}' <= c <= '\U{200A}') || c == '\U{202F}' || c == '\U{205F}'
    || c == '\U{3000}' || IsLineTerminator(c)
  }

  predicate IsBlank(s: string) {
    BlankBetween(s, 0, |s|)
  }

  /** Every character of `s` from `lo` up to `hi` is white space. */
  predicate BlankBetween(s: string, lo: nat, hi: nat)
    requires lo <= hi <= |s|
  {
    forall i :: lo <= i < hi ==> IsJsWhitespace(s[i])
  }

  /** Leading white space removed. */
  function TrimStart(s: string): (r: string)
    ensures |r| <= |s| && r == s[|s| - |r|..]
    ensures BlankBetween(s, 0, |s| - |r|)
    ensures r == [] || !IsJsWhitespace(r[0])
  {
    if s != [] && IsJsWhitespace(s[0]) then TrimStart(s[1..]) else s
  }

  /** Trailing white space removed. */
  function TrimEnd(s: string): (r: string)
    ensures |r| <= |s| && r == s[..|r|]
    ensures BlankBetween(s, |r|, |s|)
    ensures r == [] || !IsJsWhitespace(r[|r| - 1])
  {
    if s != [] && IsJsWhitespace(s[|s| - 1]) then TrimEnd(s[..|s| - 1]) else s
  }

  /** `s.trim()` */
  function Trim(s: string): string {
    TrimEnd(TrimStart(s))
  }

  /** `line.trim()` is falsy exactly for lines made only of white space. */
  lemma TrimEmptyIffBlank(s: string)
    ensures Trim(s) == "" <==> IsBlank(s)
  {
  }

  /** `s.indexOf(c)`: the first position of `c`, or -1. */
  function IndexOf(s: string, c: char): (i: int)
    ensures -1 <= i < |s|
    ensures i == -1 <==> c !in s
    ensures 0 <= i ==> s[i] == c && c !in s[..i]
  {
    if s == [] then -1
    else if s[0] == c then 0
    else
      var j := IndexOf(s[1..], c);
      if j == -1 then -1
      else
        assert s[..j + 1] == [s[0]] + s[1..][..j];
        j + 1
  }

  // ---------------------------------------------------------------------------
  // Splitting the content into lines
  // ---------------------------------------------------------------------------

  /** `content.split('\n')` */
  function Split(s: string): (lines: seq<string>)
    ensures |lines| >= 1
  {
    if s == [] then [""]
    else
      var rest := Split(s[1..]);
      if s[0] == '\n' then [""] + rest
      else [[s[0]] + rest[0]] + rest[1..]
  }

  /** The inverse of `Split`: the lines glued back with '\n'. */
  function JoinLines(lines: seq<string>): string
    requires |lines| >= 1
  {
    if |lines| == 1 then lines[0] else lines[0] + "\n" + JoinLines(lines[1..])
  }

  /** Gluing the split lines back gives the content again. */
  lemma {:induction false} JoinSplit(s: string)
    ensures JoinLines(Split(s)) == s
  {
    if s != [] {
      JoinSplit(s[1..]);
      var rest := Split(s[1..]);
      if s[0] == '\n' {
        assert Split(s)[1..] == rest;
      } else {
        var lines := Split(s);
        if |rest| == 1 {
          assert JoinLines(lines) == [s[0]] + rest[0];
        } else {
          assert lines[1..] == rest[1..];
          assert JoinLines(lines) == [s[0]] + rest[0] + "\n" + JoinLines(rest[1..]);
          assert JoinLines(rest) == rest[0] + "\n" + JoinLines(rest[1..]);
        }
      }
    }
  }

  /** A text without '\n' is a single line. */
  lemma {:induction false} SplitSingleLine(s: string)
    requires '\n' !in s
    ensures Split(s) == [s]
  {
    if s != [] {
      assert '\n' !in s[1..] by {
        forall i | 0 <= i < |s[1..]| ensures s[1..][i] != '\n' {
          assert s[1..][i] == s[i + 1];
        }
      }
      SplitSingleLine(s[1..]);
      assert [s[0]] + s[1..] == s;
    }
  }

  /** Splitting lines that were glued with '\n' gives the same lines. */
  lemma {:induction false} SplitJoin(lines: seq<string>)
    requires |lines| >= 1
    requires forall k :: 0 <= k < |lines| ==> '\n' !in lines[k]
    ensures Split(JoinLines(lines)) == lines
  {
    if |lines| == 1 {
      SplitSingleLine(lines[0]);
    } else {
      SplitJoin(lines[1..]);
      SplitSingleLine(lines[0]);
      SplitConcat(lines[0], JoinLines(lines[1..]));
      assert [lines[0]] + lines[1..] == lines;
    }
  }

  /** One step of `Split`: the first character either ends a line or starts the first one. */
  lemma SplitCons(c: char, t: string)
    ensures Split([c] + t) == if c == '\n' then [""] + Split(t) else [[c] + Split(t)[0]] + Split(t)[1..]
  {
    assert ([c] + t)[0] == c;
    assert ([c] + t)[1..] == t;
  }

  /** Splitting text joined by a '\n' splits each side apart. */
  lemma {:induction false} SplitConcat(a: string, b: string)
    ensures Split(a + "\n" + b) == Split(a) + Split(b)
  {
    if a == [] {
      assert a + "\n" + b == ['\n'] + b;
      SplitCons('\n', b);
    } else {
      var t := a[1..] + "\n" + b;
      FirstCharacterOfJoin(a, b);
      SplitConcat(a[1..], b);
      SplitCons(a[0], t);
      SplitCons(a[0], a[1..]);
      if a[0] == '\n' {
        assert [""] + (Split(a[1..]) + Split(b)) == [""] + Split(a[1..]) + Split(b);
      } else {
        FirstLineOfConcat([a[0]], Split(a[1..]), Split(b));
      }
    }
  }

  /** Text joined by a '\n' after a non-empty `a` is `a`'s first character and the rest. */
  lemma FirstCharacterOfJoin(a: string, b: string)
    requires a != []
    ensures a + "\n" + b == [a[0]] + (a[1..] + "\n" + b)
    ensures a == [a[0]] + a[1..]
  {
  }

  /** Prepending to the first line of `left + right` prepends to the first line of `left`. */
  lemma FirstLineOfConcat(x: string, left: seq<string>, right: seq<string>)
    requires |left| >= 1
    ensures [x + (left + right)[0]] + (left + right)[1..] == [x + left[0]] + left[1..] + right
  {
    assert (left + right)[1..] == left[1..] + right;
  }

  /** The number of '\n' characters in `s`. */
  function NewlineCount(s: string): nat {
    if s == [] then 0 else (if s[0] == '\n' then 1 else 0) + NewlineCount(s[1..])
  }

  /** There is one line more than there are '\n' characters. */
  lemma {:induction false} SplitLength(s: string)
    ensures |Split(s)| == NewlineCount(s) + 1
  {
    if s != [] {
      SplitLength(s[1..]);
    }
  }

  /** No line that `Split` returns contains a '\n'. */
  lemma {:induction false} SplitLinesHaveNoNewline(s: string)
    ensures forall k :: 0 <= k < |Split(s)| ==> '\n' !in Split(s)[k]
  {
    if s != [] {
      SplitLinesHaveNoNewline(s[1..]);
      var rest := Split(s[1..]);
      if s[0] != '\n' {
        assert '\n' !in [s[0]] + rest[0];
      }
    }
  }

  // ---------------------------------------------------------------------------
  // The line classifier
  // ---------------------------------------------------------------------------

  /** What one line of content renders as; `Nothing` is the `null` the map returns. */
  datatype Block =
    | H2(text: string)
    | H3(text: string)
    | H4(text: string)
    | LabeledItem(bold: string, body: string)
    | NumberedItem(text: string)
    | BoldParagraph(text: string)
    | Paragraph(text: string)
    | Nothing

  /** The number of ASCII digits at the start of `s`. */
  function LeadingDigits(s: string): (n: nat)
    ensures n <= |s|
    ensures forall i :: 0 <= i < n ==> IsAsciiDigit(s[i])
    ensures n == |s| || !IsAsciiDigit(s[n])
  {
    if s != [] && IsAsciiDigit(s[0]) then 1 + LeadingDigits(s[1..]) else 0
  }

  /** `line.match(/^\d+\. /)` succeeds. */
  predicate IsNumberedLine(s: string) {
    var n := LeadingDigits(s);
    1 <= n && n + 2 <= |s| && s[n] == '.' && s[n + 1] == ' '
  }

  /** The regex `.`: any character but a line terminator. */
  predicate IsDot(c: char) {
    !IsLineTerminator(c)
  }

  predicate AllDots(s: string, lo: nat, hi: nat)
    requires lo <= hi <= |s|
  {
    forall j :: lo <= j < hi ==> IsDot(s[j])
  }

  /** The length of the run of `.` characters that `(.+)` takes, greedily, from `i`. */
  function DotRun(s: string, i: nat): (n: nat)
    requires i <= |s|
    ensures i + n <= |s|
    ensures AllDots(s, i, i + n)
    ensures i + n == |s| || !IsDot(s[i + n])
    decreases |s| - i
  {
    if i < |s| && IsDot(s[i]) then 1 + DotRun(s, i + 1) else 0
  }

  /** `\*\*: (.+)` can match at `q`: the separator and at least one more `.`. */
  predicate SeparatorAt(s: string, q: nat) {
    q + 5 <= |s| && s[q] == '*' && s[q + 1] == '*' && s[q + 2] == ':' && s[q + 3] == ' ' && IsDot(s[q + 4])
  }

  /**
   * The lazy group `(.+?)` starting at `p`: the first length, trying `k`, `k + 1`, ...,
   * of a run of `.` characters that a separator follows.
   */
  function LazyLabel(s: string, p: nat, k: nat): (r: Option<nat>)
    requires 1 <= k && p + k <= |s| + 1
    requires AllDots(s, p, p + k - 1)
    ensures r.Some? ==> k <= r.value && p + r.value <= |s|
    ensures r.Some? ==> AllDots(s, p, p + r.value) && SeparatorAt(s, p + r.value)
    ensures r.Some? ==> forall q :: p + k <= q < p + r.value ==> !SeparatorAt(s, q)
    ensures r.None? ==> forall q :: p + k <= q <= |s| && AllDots(s, p, q) ==> !SeparatorAt(s, q)
    decreases |s| + 1 - (p + k)
  {
    if p + k > |s| then None
    else if !IsDot(s[p + k - 1]) then
      assert forall q :: p + k <= q <= |s| ==> !AllDots(s, p, q);
      None
    else if SeparatorAt(s, p + k) then Some(k)
    else LazyLabel(s, p, k + 1)
  }

  /** The regex `- \*\*(.+?)\*\*: (.+)` tried at start position `st`: its two groups. */
  function MatchAt(s: string, st: nat): Option<(string, string)>
    requires st <= |s|
  {
    if st + 4 <= |s| && s[st..st + 4] == "- **" then
      match LazyLabel(s, st + 4, 1)
      case None => None
      case Some(k) =>
        var q := st + 4 + k + 4;
        Some((s[st + 4..st + 4 + k], s[q..q + DotRun(s, q)]))
    else None
  }

  /** `line.match(...)` without the `g` flag: the match at the leftmost start position. */
  function LabelMatch(s: string, st: nat): Option<(string, string)>
    requires st <= |s|
    decreases |s| - st
  {
    match MatchAt(s, st)
    case Some(m) => Some(m)
    case None => if st < |s| then LabelMatch(s, st + 1) else None
  }

  // `s.replace(/\*\*/g, "")`: every non-overlapping `**`, left to right, removed.
  function StripBold(s: string): (r: string)
    ensures |r| <= |s|
    ensures s != [] && s[0] != '*' ==> r != [] && r[0] == s[0]
    ensures NoDoubleStar(r)
  {
    if |s| >= 2 && s[0] == '*' && s[1] == '*' then StripBold(s[2..])
    else if s == [] then []
    else [s[0]] + StripBold(s[1..])
  }

  predicate NoDoubleStar(s: string) {
    forall i :: 0 <= i < |s| - 1 ==> !(s[i] == '*' && s[i + 1] == '*')
  }

  /** `s` with every '*' dropped. */
  function NonStars(s: string): string {
    if s == [] then [] else (if s[0] == '*' then [] else [s[0]]) + NonStars(s[1..])
  }

  /** The characters of one line as rendered, by the first rule that applies. */
  function RenderLine(line: string): (b: Block)
    ensures b.H2? || b.H3? || b.H4? || b.NumberedItem? ==> |b.text| < |line|
    ensures b.LabeledItem? ==> |b.bold| + |b.body| + 8 <= |line|
    ensures b.BoldParagraph? ==> NoDoubleStar(b.text)
  {
    if StartsWith(line, "# ") then H2(line[2..])
    else if StartsWith(line, "## ") then H3(line[3..])
    else if StartsWith(line, "### ") then H4(line[4..])
    else if StartsWith(line, "- **") && LabelMatch(line, 0).Some? then
      var m := LabelMatch(line, 0).value;
      LabelMatchLength(line, 0);
      LabeledItem(m.0, m.1)
    else if IsNumberedLine(line) then NumberedItem(line[IndexOf(line, ' ') + 1..])
    else if StartsWith(line, "**") && EndsWith(line, "**") then BoldParagraph(StripBold(line))
    else if Trim(line) != "" then Paragraph(line)
    else Nothing
  }

  lemma {:induction false} LabelMatchLength(s: string, st: nat)
    requires st <= |s|
    requires LabelMatch(s, st).Some?
    ensures |LabelMatch(s, st).value.0| + |LabelMatch(s, st).value.1| + 8 <= |s|
    decreases |s| - st
  {
    if MatchAt(s, st).None? {
      LabelMatchLength(s, st + 1);
    }
  }

  /** `post.content.split('\n').map(...)`: one block per line, in line order. */
  function RenderContent(content: string): (blocks: seq<Block>)
    ensures |blocks| == |Split(content)| == NewlineCount(content) + 1
    ensures forall i :: 0 <= i < |blocks| ==> blocks[i] == RenderLine(Split(content)[i])
  {
    SplitLength(content);
    RenderLines(Split(content))
  }

  function RenderLines(lines: seq<string>): (blocks: seq<Block>)
    ensures |blocks| == |lines|
    ensures forall i :: 0 <= i < |lines| ==> blocks[i] == RenderLine(lines[i])
  {
    if lines == [] then [] else [RenderLine(lines[0])] + RenderLines(lines[1..])
  }

  /** Rendering text joined by a '\n' renders each side on its own. */
  lemma RenderContentConcat(a: string, b: string)
    ensures RenderContent(a + "\n" + b) == RenderContent(a) + RenderContent(b)
  {
    SplitConcat(a, b);
  }

  // ---------------------------------------------------------------------------
  // What the classifier promises
  // ---------------------------------------------------------------------------

  /** The three heading prefixes exclude each other. */
  lemma HeadingPrefixesDisjoint(line: string)
    ensures !(StartsWith(line, "# ") && StartsWith(line, "## "))
    ensures !(StartsWith(line, "## ") && StartsWith(line, "### "))
    ensures !(StartsWith(line, "# ") && StartsWith(line, "### "))
  {
    if StartsWith(line, "## ") {
      assert line[1] == line[..3][1] == '#';
      assert !StartsWith(line, "# ") by { if |line| >= 2 { assert line[..2][1] == line[1]; } }
    }
    if StartsWith(line, "### ") {
      assert line[1] == line[..4][1] == '#';
      assert line[2] == line[..4][2] == '#';
      assert !StartsWith(line, "# ") by { assert line[..2][1] == line[1]; }
      assert !StartsWith(line, "## ") by { assert line[..3][2] == line[2]; }
    }
  }

  /** A line that starts with a prefix starts with that prefix's first character. */
  lemma StartsWithFirst(line: string, prefix: string)
    requires prefix != [] && StartsWith(line, prefix)
    ensures line[0] == prefix[0]
  {
    assert line[0] == line[..|prefix|][0];
  }

  /** A line is a heading exactly when it starts with the heading's own prefix. */
  lemma RenderLineHeadings(line: string)
    ensures RenderLine(line).H2? <==> StartsWith(line, "# ")
    ensures RenderLine(line).H3? <==> StartsWith(line, "## ")
    ensures RenderLine(line).H4? <==> StartsWith(line, "### ")
  {
    HeadingPrefixesDisjoint(line);
  }

  /**
   * A line is a bold-label item exactly when it starts with "- **" and the regex
   * matches; it is a numbered item exactly when it starts with digits and ". ".
   * A "- **" line the regex rejects is a plain paragraph.
   */
  lemma RenderLineItems(line: string)
    ensures RenderLine(line).LabeledItem? <==> StartsWith(line, "- **") && LabelMatch(line, 0).Some?
    ensures RenderLine(line).NumberedItem? <==> IsNumberedLine(line)
    ensures StartsWith(line, "- **") && LabelMatch(line, 0).None? ==> RenderLine(line) == Paragraph(line)
  {
    TrimEmptyIffBlank(line);
    FirstCharacter(line);
  }

  /**
   * A line is a bold paragraph exactly when it starts and ends with "**", and
   * renders nothing exactly when it is all white space.
   */
  lemma RenderLineParagraphs(line: string)
    ensures RenderLine(line).BoldParagraph? <==> StartsWith(line, "**") && EndsWith(line, "**")
    ensures RenderLine(line).Nothing? <==> IsBlank(line)
  {
    TrimEmptyIffBlank(line);
    FirstCharacter(line);
  }

  /** The first character each rule looks at. */
  lemma FirstCharacter(line: string)
    ensures StartsWith(line, "# ") || StartsWith(line, "## ") || StartsWith(line, "### ") ==> line[0] == '#'
    ensures StartsWith(line, "- **") ==> line[0] == '-'
    ensures StartsWith(line, "**") ==> line[0] == '*'
    ensures IsNumberedLine(line) ==> IsAsciiDigit(line[0])
    ensures IsBlank(line) && line != [] ==> IsJsWhitespace(line[0])
  {
    if line != [] {
      assert forall n :: 1 <= n <= |line| ==> line[..n][0] == line[0];
    }
  }

  /** A heading's text is its line without the prefix. */
  lemma HeadingText(line: string)
    ensures RenderLine(line).H2? ==> line == "# " + RenderLine(line).text
    ensures RenderLine(line).H3? ==> line == "## " + RenderLine(line).text
    ensures RenderLine(line).H4? ==> line == "### " + RenderLine(line).text
  {
    var b := RenderLine(line);
    if b.H2? || b.H3? || b.H4? {
      var n := if b.H2? then 2 else if b.H3? then 3 else 4;
      assert line == line[..n] + line[n..];
    }
  }

  /** A numbered item's text is everything after the digits and ". ". */
  lemma NumberedItemText(line: string)
    ensures RenderLine(line).NumberedItem? ==>
      var n := LeadingDigits(line);
      n >= 1 && AllDigits(line[..n]) && line == line[..n] + ". " + RenderLine(line).text
  {
    if RenderLine(line).NumberedItem? {
      RenderLineItems(line);
      NumberedLineShape(line);
    }
  }

  /** On a numbered line the first space is the one after the dot. */
  lemma NumberedLineShape(line: string)
    requires IsNumberedLine(line)
    ensures var n := LeadingDigits(line);
      IndexOf(line, ' ') == n + 1 && line == line[..n] + ". " + line[n + 2..]
  {
    var n := LeadingDigits(line);
    FirstSpaceAfterNumber(line);
    assert line[n..n + 2] == ". ";
    CutInThree(line, n, n + 2);
  }

  /** The digits and the dot hold no space, so the first space follows the dot. */
  lemma FirstSpaceAfterNumber(line: string)
    requires IsNumberedLine(line)
    ensures IndexOf(line, ' ') == LeadingDigits(line) + 1
  {
    FirstOccurrence(line, ' ', LeadingDigits(line) + 1);
  }

  /** A sequence is its three pieces cut at `i` and `j`. */
  lemma CutInThree(s: string, i: nat, j: nat)
    requires i <= j <= |s|
    ensures s == s[..i] + s[i..j] + s[j..]
  {
    assert s[..j] == s[..i] + s[i..j];
  }

  /** `indexOf` finds the position of the first occurrence. */
  lemma FirstOccurrence(s: string, c: char, k: nat)
    requires k < |s| && s[k] == c
    requires forall i :: 0 <= i < k ==> s[i] != c
    ensures IndexOf(s, c) == k
  {
    assert s[k] in s;
  }

  /**
   * A bold paragraph keeps every character of its line but the `**` pairs, in
   * order, and holds no `**`; a plain paragraph is its line, verbatim.
   */
  lemma ParagraphText(line: string)
    ensures RenderLine(line).BoldParagraph? ==>
      NonStars(RenderLine(line).text) == NonStars(line) && NoDoubleStar(RenderLine(line).text)
    ensures RenderLine(line).Paragraph? ==> RenderLine(line).text == line && !IsBlank(line)
  {
    var b := RenderLine(line);
    if b.BoldParagraph? {
      RenderLineParagraphs(line);
      FirstCharacter(line);
      assert b.text == StripBold(line);
      StripBoldKeepsNonStars(line);
    } else if b.Paragraph? {
      TrimEmptyIffBlank(line);
    }
  }

  /** Removing the `**` pairs keeps every other character, in order. */
  lemma {:induction false} StripBoldKeepsNonStars(s: string)
    ensures NonStars(StripBold(s)) == NonStars(s)
  {
    if |s| >= 2 && s[0] == '*' && s[1] == '*' {
      StripBoldKeepsNonStars(s[2..]);
      assert NonStars(s) == NonStars(s[1..]) == NonStars(s[2..]) by {
        assert s[1..][1..] == s[2..];
      }
    } else if s != [] {
      StripBoldKeepsNonStars(s[1..]);
      assert ([s[0]] + StripBold(s[1..]))[1..] == StripBold(s[1..]);
    }
  }

  /** A text without `**` is left as it is. */
  lemma {:induction false} StripBoldIdentity(s: string)
    requires NoDoubleStar(s)
    ensures StripBold(s) == s
  {
    if s != [] {
      assert NoDoubleStar(s[1..]) by {
        forall i | 0 <= i < |s[1..]| - 1 ensures !(s[1..][i] == '*' && s[1..][i + 1] == '*') {
          assert s[1..][i] == s[i + 1] && s[1..][i + 1] == s[i + 2];
        }
      }
      StripBoldIdentity(s[1..]);
      assert [s[0]] + s[1..] == s;
    }
  }

  /** A run of `n` stars. */
  function Stars(n: nat): string {
    if n == 0 then "" else ['*'] + Stars(n - 1)
  }

  /**
   * `replace` removes the stars of a run two by two from the left: an even run
   * vanishes and an odd run leaves a single star, so "***" becomes "*".
   */
  lemma {:induction false} StripBoldStarRun(k: nat)
    ensures StripBold(Stars(2 * k)) == ""
    ensures StripBold(Stars(2 * k + 1)) == "*"
  {
    if k > 0 {
      StripBoldStarRun(k - 1);
      assert Stars(2 * k)[2..] == Stars(2 * k - 2);
      assert Stars(2 * k + 1)[2..] == Stars(2 * k - 1);
    } else {
      assert Stars(1) == "*";
    }
  }

  predicate NoLineTerminator(s: string) {
    AllDots(s, 0, |s|)
  }

  /** No separator from `st` on: no match at `st` or after. */
  lemma {:induction false} LabelMatchNone(s: string, st: nat)
    requires st <= |s|
    requires forall q :: st + 5 <= q <= |s| ==> !SeparatorAt(s, q)
    ensures LabelMatch(s, st).None?
    decreases |s| - st
  {
    if st < |s| {
      LabelMatchNone(s, st + 1);
    }
  }

  /**
   * On a line without line terminators, a bold-label item is the line
   * "- **" + bold + "**: " + body, where bold is the shortest non-empty text a
   * "**: " and at least one more character follow, and body is all the rest.
   */
  lemma LabeledItemShape(line: string)
    requires NoLineTerminator(line)
    requires RenderLine(line).LabeledItem?
    ensures line == "- **" + RenderLine(line).bold + "**: " + RenderLine(line).body
    ensures RenderLine(line).bold != "" && RenderLine(line).body != ""
    ensures forall q :: 5 <= q < 4 + |RenderLine(line).bold| ==> !SeparatorAt(line, q)
  {
    RenderLineItems(line);
    RenderLineLabeled(line);
    LabelMatchShape(line);
  }

  /** A bold-label item carries the two groups of the regex's match. */
  lemma RenderLineLabeled(line: string)
    requires RenderLine(line).LabeledItem?
    ensures LabelMatch(line, 0).Some?
    ensures RenderLine(line) == LabeledItem(LabelMatch(line, 0).value.0, LabelMatch(line, 0).value.1)
  {
    RenderLineItems(line);
  }

  /** The regex's match on a line without terminators: the line is "- **" + bold + "**: " + body. */
  lemma LabelMatchShape(line: string)
    requires NoLineTerminator(line)
    requires StartsWith(line, "- **") && LabelMatch(line, 0).Some?
    ensures var m := LabelMatch(line, 0).value;
      line == "- **" + m.0 + "**: " + m.1 && m.0 != "" && m.1 != "" &&
      forall q :: 5 <= q < 4 + |m.0| ==> !SeparatorAt(line, q)
  {
    MatchAtStart(line);
    var k := LazyLabel(line, 4, 1).value;
    var q := 4 + k + 4;
    MatchAtParts(line, k);
    DotRunToEnd(line, q);
    assert line[q..q + DotRun(line, q)] == line[q..];
    PiecesOfLabeledLine(line, k);
  }

  /** A line opening with "- **" and holding "**: " at `4 + k` is made of those pieces. */
  lemma PiecesOfLabeledLine(line: string, k: nat)
    requires SeparatorAt(line, 4 + k) && line[0..4] == "- **"
    ensures line == "- **" + line[4..4 + k] + "**: " + line[4 + k + 4..]
  {
    assert line[4 + k..4 + k + 4] == "**: ";
    CutInThree(line, 4, 4 + k);
    CutInThree(line[4 + k..], 0, 4);
  }

  /** A bold-label match on a line without terminators is found at its start. */
  lemma MatchAtStart(line: string)
    requires NoLineTerminator(line)
    requires StartsWith(line, "- **") && LabelMatch(line, 0).Some?
    ensures line[0..4] == "- **"
    ensures LazyLabel(line, 4, 1).Some? && LabelMatch(line, 0) == MatchAt(line, 0)
  {
    assert line[..4] == "- **";
    if LazyLabel(line, 4, 1).None? {
      LabelMatchNone(line, 1);
      assert false;
    }
  }

  /** Conversely, every such line is rendered as that bold-label item. */
  lemma LabeledItemOfShape(line: string, bold: string, body: string)
    requires line == "- **" + bold + "**: " + body
    requires bold != "" && body != "" && NoLineTerminator(line)
    requires forall q :: 5 <= q < 4 + |bold| ==> !SeparatorAt(line, q)
    ensures RenderLine(line) == LabeledItem(bold, body)
  {
    var k := |bold|;
    assert line[0..4] == "- **";
    assert line[4 + k..4 + k + 4] == "**: ";
    assert SeparatorAt(line, 4 + k);
    MatchOfShape(line, k);
    assert line[4..4 + k] == bold;
    assert line[4 + k + 4..] == body;
    assert line[..4] == "- **";
    HeadingPrefixesDisjoint(line);
    StartsWithFirst(line, "- **");
    assert !StartsWith(line, "# ") && !StartsWith(line, "## ") && !StartsWith(line, "### ") by {
      if StartsWith(line, "# ") { StartsWithFirst(line, "# "); }
      if StartsWith(line, "## ") { StartsWithFirst(line, "## "); }
      if StartsWith(line, "### ") { StartsWithFirst(line, "### "); }
    }
  }

  /**
   * A line opening with "- **", whose first separator after a non-empty label
   * sits `k` characters in, matches at the start with those two groups.
   */
  lemma MatchOfShape(line: string, k: nat)
    requires 1 <= k && 4 + k + 5 <= |line| && NoLineTerminator(line)
    requires line[0..4] == "- **" && SeparatorAt(line, 4 + k)
    requires forall q :: 5 <= q < 4 + k ==> !SeparatorAt(line, q)
    ensures LabelMatch(line, 0) == Some((line[4..4 + k], line[4 + k + 4..]))
  {
    var q := 4 + k + 4;
    LazyLabelOfShape(line, k);
    MatchAtParts(line, k);
    DotRunToEnd(line, q);
    assert line[q..q + DotRun(line, q)] == line[q..];
    assert MatchAt(line, 0).Some?;
  }

  /** The regex's groups at the start, once the lazy group's length `k` is known. */
  lemma MatchAtParts(line: string, k: nat)
    requires 1 <= k && 4 + k + 4 <= |line|
    requires line[0..4] == "- **" && LazyLabel(line, 4, 1) == Some(k)
    ensures MatchAt(line, 0) == Some((line[4..4 + k], line[4 + k + 4..4 + k + 4 + DotRun(line, 4 + k + 4)]))
  {
  }

  /** On a line without terminators the greedy `(.+)` runs to the end. */
  lemma DotRunToEnd(line: string, i: nat)
    requires i <= |line| && NoLineTerminator(line)
    ensures DotRun(line, i) == |line| - i
  {
  }

  /** The lazy group stops at the first separator, `k` characters in. */
  lemma LazyLabelOfShape(line: string, k: nat)
    requires 1 <= k && 4 + k + 5 <= |line| && NoLineTerminator(line)
    requires SeparatorAt(line, 4 + k)
    requires forall q :: 5 <= q < 4 + k ==> !SeparatorAt(line, q)
    ensures LazyLabel(line, 4, 1) == Some(k)
  {
    assert AllDots(line, 4, 4 + k);
  }

  // ---------------------------------------------------------------------------
  // Lines of the stored posts
  // ---------------------------------------------------------------------------

  /** A line that opens with "**" but does not end with '*' is a plain paragraph. */
  lemma UnclosedBoldIsPlain(line: string)
    requires |line| >= 2 && line[0] == '*' && line[1] == '*' && line[|line| - 1] != '*'
    ensures RenderLine(line) == Paragraph(line)
  {
    FirstCharacter(line);
    RenderLineHeadings(line);
    RenderLineItems(line);
    RenderLineParagraphs(line);
    assert line[|line| - 2..][1] == line[|line| - 1];
    assert !IsBlank(line) by { assert !IsJsWhitespace(line[0]); }
  }

  /** The schedule line of the Movimente-se post: two trailing spaces keep it from being bold. */
  lemma SegundasLineIsPlain()
    ensures RenderLine("**Segundas e Quartas-feiras**  ") == Paragraph("**Segundas e Quartas-feiras**  ")
  {
    UnclosedBoldIsPlain("**Segundas e Quartas-feiras**  ");
  }
}
