/** Title validation, slug and filename derivation, and the markdown sanitiser
    of the utilities module (src/utils.py). Strings are sequences of Unicode
    scalar values. Python's `len` and indexing count code points, which also
    include lone surrogates; strings holding those are not modelled. */
module Utils {
  import opened Wrappers

  // ---------------------------------------------------------------------
  // Characters and trimming
  // ---------------------------------------------------------------------

  /** The characters CPython treats as whitespace: `str.isspace`, `str.strip()`
      and the regular-expression class `\s` all use this one table. */
  predicate IsSpace(c: char) {
    ('\t' <= c <= '\r') || ('\U{1C}' <= c <= '\U{1F}') || c == ' ' ||
    c == '\U{85}' || c == '\U{A0}' || c == '\U{1680}' ||
    ('\U{2000}' <= c <= '\U{200A}') || c == '\U{2028}' || c == '\U{2029}' ||
    c == '\U{202F}' || c == '\U{205F}' || c == '\U{3000}'
  }

  predicate IsUnderscore(c: char) { c == '_' }

  predicate IsNewline(c: char) { c == '\n' }

  /** Every character of `s` is whitespace (the empty string included). */
  predicate IsBlank(s: string) {
    forall i :: 0 <= i < |s| ==> IsSpace(s[i])
  }

  predicate StartsWith(s: string, prefix: string) {
    |prefix| <= |s| && s[..|prefix|] == prefix
  }

  /** Concatenation is associative. */
  lemma ConcatAssoc(x: string, y: string, z: string)
    ensures x + y + z == x + (y + z)
  {
  }

  /** The head of `x + y` is the head of `x`, and its tail is the tail of `x`, then `y`. */
  lemma ConcatHead(x: string, y: string)
    requires x != []
    ensures (x + y)[0] == x[0] && (x + y)[1..] == x[1..] + y
  {
  }

  /** Dropping a prefix of `x` from `x + y` leaves the rest of `x`, then `y`. */
  lemma DropConcat(x: string, y: string, k: nat)
    requires k <= |x|
    ensures (x + y)[k..] == x[k..] + y && (x + y)[..k] == x[..k]
  {
  }

  /** Character `j` of `s[k..]` is character `k + j` of `s`. */
  lemma DropAt(s: string, k: nat)
    requires k <= |s|
    ensures forall j :: 0 <= j < |s| - k ==> s[k..][j] == s[k + j]
  {
  }

  /** How many leading characters of `s` are dropped by `s.lstrip(chars)`. */
  function Lead(s: string, drop: char -> bool): (k: nat)
    ensures k <= |s| && (forall i :: 0 <= i < k ==> drop(s[i])) && (k == |s| || !drop(s[k]))
    decreases |s|
  {
    if s == [] || !drop(s[0]) then 0 else 1 + Lead(s[1..], drop)
  }

  /** How many characters of `s` are kept by `s.rstrip(chars)`. */
  function Kept(s: string, drop: char -> bool): (k: nat)
    ensures k <= |s| && (forall i :: k <= i < |s| ==> drop(s[i])) && (k == 0 || !drop(s[k - 1]))
    decreases |s|
  {
    if s == [] || !drop(s[|s| - 1]) then |s| else Kept(s[..|s| - 1], drop)
  }

  /** `s.lstrip(chars)`: the longest suffix of `s` that does not start with a dropped character. */
  function TrimStart(s: string, drop: char -> bool): string {
    s[Lead(s, drop)..]
  }

  /** `s.rstrip(chars)`: the longest prefix of `s` that does not end with a dropped character. */
  function TrimEnd(s: string, drop: char -> bool): string {
    s[..Kept(s, drop)]
  }

  /** `s.strip(chars)`: both ends trimmed; what is left is a contiguous piece of `s`. */
  function Trim(s: string, drop: char -> bool): (r: string)
    ensures Lead(s, drop) + |r| <= |s| && r == s[Lead(s, drop)..Lead(s, drop) + |r|]
    ensures r == [] || (!drop(r[0]) && !drop(r[|r| - 1]))
    ensures forall i :: Lead(s, drop) + |r| <= i < |s| ==> drop(s[i])
  {
    DropAt(s, Lead(s, drop));
    TrimEnd(TrimStart(s, drop), drop)
  }

  /** Python's argument-less `s.strip()`: the whitespace before and after the
      result is all the whitespace at the ends of `s`. */
  function Strip(s: string): (r: string)
    ensures Lead(s, IsSpace) + |r| <= |s| && r == s[Lead(s, IsSpace)..Lead(s, IsSpace) + |r|]
    ensures forall i :: 0 <= i < Lead(s, IsSpace) ==> IsSpace(s[i])
    ensures forall i :: Lead(s, IsSpace) + |r| <= i < |s| ==> IsSpace(s[i])
    ensures r == [] || (!IsSpace(r[0]) && !IsSpace(r[|r| - 1]))
    ensures r == [] <==> IsBlank(s)
  {
    var r := Trim(s, IsSpace);
    assert r == [] ==> Lead(s, IsSpace) == |s|;
    r
  }

  // ---------------------------------------------------------------------
  // validate_title (src/utils.py:10-27)
  // ---------------------------------------------------------------------

  const MaxTitleLength := 200

  /** The forbidden characters, in the order the validator tries them. */
  const InvalidChars: seq<char> := ['<', '>', ':', '"', '|', '?', '*', '\\', '/']

  datatype TitleError = Empty | TooLong | InvalidChar(c: char)
  {
    /** The message the validator returns for this error. */
    function Message(): string {
      match this
      case Empty => "タイトルが空です"
      case TooLong => "タイトルが200文字を超えています"
      case InvalidChar(c) => "無効な文字が含まれています: " + [c]
    }
  }

  /** The early-return loop over `invalid_chars`, from position `i` on: the first
      forbidden character, in list order, that occurs in `title`. */
  function FirstInvalidChar(title: string, i: nat): (r: Option<char>)
    requires i <= |InvalidChars|
    ensures r.None? <==> forall j :: i <= j < |InvalidChars| ==> InvalidChars[j] !in title
    ensures r.Some? ==> exists k :: i <= k < |InvalidChars| && r.value == InvalidChars[k] &&
                          InvalidChars[k] in title &&
                          forall j :: i <= j < k ==> InvalidChars[j] !in title
    decreases |InvalidChars| - i
  {
    if i == |InvalidChars| then None
    else if InvalidChars[i] in title then Some(InvalidChars[i])
    else FirstInvalidChar(title, i + 1)
  }

  /** `validate_title`: `None` for an acceptable title, otherwise the first error
      in the order blank, too long, forbidden character. */
  function ValidateTitle(title: string): (r: Option<TitleError>)
    ensures r == Some(Empty) <==> IsBlank(title)
    ensures r.None? ==> |title| <= MaxTitleLength
  {
    if title == [] || Strip(title) == [] then Some(Empty)
    else if |title| > MaxTitleLength then Some(TooLong)
    else match FirstInvalidChar(title, 0)
      case Some(c) => Some(InvalidChar(c))
      case None => None
  }

  /** What `validate_title` reports: blank titles, then over-long ones, then the
      first forbidden character in list order; a title is accepted exactly when
      none of these applies. */
  lemma ValidateTitleCases(title: string)
    ensures var r := ValidateTitle(title);
            (r == Some(Empty) <==> IsBlank(title)) &&
            (r == Some(TooLong) <==> !IsBlank(title) && |title| > MaxTitleLength) &&
            (r.Some? && r.value.InvalidChar? ==>
               !IsBlank(title) && |title| <= MaxTitleLength &&
               exists k :: 0 <= k < |InvalidChars| && r.value.c == InvalidChars[k] &&
                 InvalidChars[k] in title && forall j :: 0 <= j < k ==> InvalidChars[j] !in title) &&
            (r.None? <==> !IsBlank(title) && |title| <= MaxTitleLength &&
                          forall c :: c in InvalidChars ==> c !in title)
  {
  }

  predicate IsValidTitle(title: string) {
    ValidateTitle(title).None?
  }

  // ---------------------------------------------------------------------
  // create_title_slug (src/utils.py:30-48)
  // ---------------------------------------------------------------------

  /** The character class the slug removes: `[<>:"/\\|?*]`. */
  const SlugForbidden: seq<char> := ['<', '>', ':', '"', '/', '\\', '|', '?', '*']

  const MaxSlugLength := 50

  const Untitled := "untitled"

  /** A character that may appear in a slug. */
  predicate IsSlugChar(c: char) {
    c !in SlugForbidden && !IsSpace(c)
  }

  /** `re.sub(r'[<>:"/\\|?*]', '', s)`: `s` with every forbidden character deleted. */
  function RemoveForbidden(s: string): (r: string)
    ensures |r| <= |s|
    ensures forall i :: 0 <= i < |r| ==> r[i] !in SlugForbidden
    ensures (forall i :: 0 <= i < |s| ==> s[i] !in SlugForbidden) ==> r == s
  {
    if s == [] then []
    else if s[0] in SlugForbidden then RemoveForbidden(s[1..])
    else [s[0]] + RemoveForbidden(s[1..])
  }

  /** `re.sub(r'[\s\u3000]+', '_', s)`: every maximal run of whitespace becomes one
      underscore (U+3000 is already part of `\s`). */
  function CollapseSpace(s: string): (r: string)
    ensures |r| <= |s|
    ensures forall i :: 0 <= i < |r| ==> !IsSpace(r[i])
    ensures (forall i :: 0 <= i < |s| ==> s[i] !in SlugForbidden) ==>
              forall i :: 0 <= i < |r| ==> r[i] !in SlugForbidden
    ensures (forall i :: 0 <= i < |s| ==> !IsSpace(s[i])) ==> r == s
    decreases |s|
  {
    if s == [] then []
    else if IsSpace(s[0]) then "_" + CollapseSpace(TrimStart(s, IsSpace))
    else [s[0]] + CollapseSpace(s[1..])
  }

  /** Leading characters are dropped from `x + y` as from `x` when `x` has a
      character that is kept. */
  lemma {:induction false} LeadConcat(x: string, y: string, drop: char -> bool)
    requires Lead(x, drop) < |x|
    ensures Lead(x + y, drop) == Lead(x, drop)
    decreases |x|
  {
    ConcatHead(x, y);
    if drop(x[0]) {
      LeadConcat(x[1..], y, drop);
    }
  }

  /** Dropping the leading characters of `x + y` leaves the rest of `x`, then
      `y`, when `x` has a character that is kept. */
  lemma TrimStartConcat(x: string, y: string, drop: char -> bool)
    requires Lead(x, drop) < |x|
    ensures TrimStart(x + y, drop) == TrimStart(x, drop) + y
  {
    LeadConcat(x, y, drop);
    DropConcat(x, y, Lead(x, drop));
  }

  /** The last character of a text is kept, so the text is not all dropped. */
  lemma LeadBeforeLast(x: string, drop: char -> bool)
    requires x != [] && !drop(x[|x| - 1])
    ensures Lead(x, drop) < |x|
    ensures TrimStart(x, drop) != [] && TrimStart(x, drop)[|TrimStart(x, drop)| - 1] == x[|x| - 1]
  {
  }

  /** A text that does not end in whitespace ends every whitespace run in it,
      so the collapse works on it and on what follows separately. */
  lemma {:induction false} CollapseSpaceConcat(x: string, y: string)
    requires x == [] || !IsSpace(x[|x| - 1])
    ensures CollapseSpace(x + y) == CollapseSpace(x) + CollapseSpace(y)
    decreases |x|
  {
    if x == [] {
      assert x + y == y;
    } else if IsSpace(x[0]) {
      var t := TrimStart(x, IsSpace);
      LeadBeforeLast(x, IsSpace);
      CollapseSpaceConcat(t, y);
      CollapseSpaceAfterRun(x, y);
      ConcatAssoc("_", CollapseSpace(t), CollapseSpace(y));
    } else {
      CollapseSpaceAfterChar(x, y);
      CollapseSpaceConcat(x[1..], y);
      ConcatAssoc([x[0]], CollapseSpace(x[1..]), CollapseSpace(y));
    }
  }

  /** One step of the collapse on `x + y` when `x` starts with a run of
      whitespace that ends inside `x`. */
  lemma CollapseSpaceAfterRun(x: string, y: string)
    requires x != [] && IsSpace(x[0]) && Lead(x, IsSpace) < |x|
    ensures CollapseSpace(x + y) == "_" + CollapseSpace(TrimStart(x, IsSpace) + y)
    ensures CollapseSpace(x) == "_" + CollapseSpace(TrimStart(x, IsSpace))
  {
    TrimStartConcat(x, y, IsSpace);
    ConcatHead(x, y);
  }

  /** One step of the collapse on `x + y` when `x` starts with a character
      other than whitespace. */
  lemma CollapseSpaceAfterChar(x: string, y: string)
    requires x != [] && !IsSpace(x[0])
    ensures CollapseSpace(x + y) == [x[0]] + CollapseSpace(x[1..] + y)
    ensures CollapseSpace(x) == [x[0]] + CollapseSpace(x[1..])
  {
    ConcatHead(x, y);
  }

  /** A maximal run of whitespace, however long, becomes one `_`, and the
      text on either side of it is collapsed on its own. */
  lemma CollapseSpaceRun(a: string, w: string, b: string)
    requires a == [] || !IsSpace(a[|a| - 1])
    requires w != [] && IsBlank(w)
    requires b == [] || !IsSpace(b[0])
    ensures CollapseSpace(a + w + b) == CollapseSpace(a) + "_" + CollapseSpace(b)
  {
    ConcatAssoc(a, w, b);
    CollapseSpaceConcat(a, w + b);
    CollapseSpaceLeadingRun(w, b);
    ConcatAssoc(CollapseSpace(a), "_", CollapseSpace(b));
  }

  /** A text that opens with a whole run of whitespace collapses to `_` and
      the rest. */
  lemma CollapseSpaceLeadingRun(w: string, b: string)
    requires w != [] && IsBlank(w)
    requires b == [] || !IsSpace(b[0])
    ensures CollapseSpace(w + b) == "_" + CollapseSpace(b)
  {
    TrimStartSkips(w, b, IsSpace);
    var t := w + b;
    ConcatHead(w, b);
    assert CollapseSpace(t) == "_" + CollapseSpace(TrimStart(t, IsSpace));
  }

  /** The steps of `create_title_slug` before the length cut: strip, normalise,
      delete forbidden characters, collapse whitespace, strip underscores. */
  function SlugBody(title: string, nfkc: string -> string): (body: string)
    ensures |body| <= |nfkc(Strip(title))|
    ensures var n := nfkc(Strip(title));
            (forall i :: 0 <= i < |n| ==> IsSlugChar(n[i])) && (n == [] || (n[0] != '_' && n[|n| - 1] != '_')) ==>
              body == n
  {
    SlugTextPassesSteps(nfkc(Strip(title)));
    Trim(CollapseSpace(RemoveForbidden(nfkc(Strip(title)))), IsUnderscore)
  }

  /** Slug text goes through the removal, the collapse and the underscore
      strip unchanged. */
  lemma SlugTextPassesSteps(n: string)
    ensures (forall i :: 0 <= i < |n| ==> IsSlugChar(n[i])) && (n == [] || (n[0] != '_' && n[|n| - 1] != '_')) ==>
              Trim(CollapseSpace(RemoveForbidden(n)), IsUnderscore) == n
  {
    if (forall i :: 0 <= i < |n| ==> IsSlugChar(n[i])) && (n == [] || (n[0] != '_' && n[|n| - 1] != '_')) {
      assert RemoveForbidden(n) == n;
      assert CollapseSpace(n) == n;
      NoDropTrimIsIdentity(n, IsUnderscore);
    }
  }

  /** Slug characters only, and no `_` at either end. */
  predicate IsSlugText(s: string) {
    (forall i :: 0 <= i < |s| ==> IsSlugChar(s[i])) && (s == [] || (s[0] != '_' && s[|s| - 1] != '_'))
  }

  lemma SlugBodyShape(title: string, nfkc: string -> string)
    ensures IsSlugText(SlugBody(title, nfkc))
  {
    var c := CollapseSpace(RemoveForbidden(nfkc(Strip(title))));
    CollapsedIsClean(nfkc(Strip(title)));
    UnderscoreTrimShape(c);
    assert SlugBody(title, nfkc) == Trim(c, IsUnderscore);
  }

  /** After the removal and the collapse, no whitespace and no forbidden
      character is left. */
  lemma CollapsedIsClean(n: string)
    ensures var c := CollapseSpace(RemoveForbidden(n));
            forall i :: 0 <= i < |c| ==> !IsSpace(c[i]) && c[i] !in SlugForbidden
  {
  }

  /** Stripping underscores from text without whitespace or forbidden
      characters gives slug text with no `_` at either end. */
  lemma UnderscoreTrimShape(c: string)
    requires forall i :: 0 <= i < |c| ==> !IsSpace(c[i]) && c[i] !in SlugForbidden
    ensures IsSlugText(Trim(c, IsUnderscore))
  {
    var body := Trim(c, IsUnderscore);
    var k := Lead(c, IsUnderscore);
    forall i | 0 <= i < |body| ensures IsSlugChar(body[i]) {
      assert body[i] == c[k + i];
    }
  }

  lemma UntitledIsSlugText()
    ensures forall i :: 0 <= i < |Untitled| ==> IsSlugChar(Untitled[i])
  {
    forall i | 0 <= i < |Untitled| ensures 'a' <= Untitled[i] <= 'z' {
      if i == 0 {} else if i == 1 {} else if i == 2 {} else if i == 3 {}
      else if i == 4 {} else if i == 5 {} else if i == 6 {} else {}
    }
  }

  /** The last steps of `create_title_slug`: cut to 50 characters, strip the
      underscores the cut exposed, and fall back to `untitled`. */
  function CutSlug(body: string): (slug: string)
    requires forall i :: 0 <= i < |body| ==> IsSlugChar(body[i])
    requires body == [] || (body[0] != '_' && body[|body| - 1] != '_')
    ensures 0 < |slug| <= MaxSlugLength
    ensures forall i :: 0 <= i < |slug| ==> IsSlugChar(slug[i])
    ensures slug[0] != '_' && slug[|slug| - 1] != '_'
    ensures body == [] ==> slug == Untitled
    ensures body != [] ==> |slug| <= |body| && slug == body[..|slug|]
    ensures 0 < |body| <= MaxSlugLength ==> slug == body
    ensures |body| > MaxSlugLength ==> forall i :: |slug| <= i < MaxSlugLength ==> body[i] == '_'
  {
    if body == [] then UntitledIsSlugText(); Untitled
    else if |body| > MaxSlugLength then
      var cut := TrimEnd(body[..MaxSlugLength], IsUnderscore);
      assert body[..MaxSlugLength][0] == body[0];
      assert forall i :: 0 <= i < |cut| ==> cut[i] == body[i];
      cut
    else body
  }

  /** `create_title_slug`; `nfkc` is Unicode NFKC normalisation, left as a parameter. */
  function CreateTitleSlug(title: string, nfkc: string -> string): (slug: string)
    ensures 0 < |slug| <= MaxSlugLength
    ensures forall i :: 0 <= i < |slug| ==> IsSlugChar(slug[i])
    ensures slug[0] != '_' && slug[|slug| - 1] != '_'
  {
    SlugBodyShape(title, nfkc);
    CutSlug(SlugBody(title, nfkc))
  }

  /** A slug is its own slug: deriving a slug from a slug changes nothing
      when normalisation leaves it alone. */
  lemma {:induction false} SlugIsIdempotent(title: string, nfkc: string -> string)
    requires nfkc(CreateTitleSlug(title, nfkc)) == CreateTitleSlug(title, nfkc)
    ensures CreateTitleSlug(CreateTitleSlug(title, nfkc), nfkc) == CreateTitleSlug(title, nfkc)
  {
    SlugTextIsFixed(CreateTitleSlug(title, nfkc), nfkc);
  }

  /** Text that already has the shape of a slug is its own slug. */
  lemma SlugTextIsFixed(s: string, nfkc: string -> string)
    requires 0 < |s| <= MaxSlugLength && nfkc(s) == s
    requires forall i :: 0 <= i < |s| ==> IsSlugChar(s[i])
    requires s[0] != '_' && s[|s| - 1] != '_'
    ensures CreateTitleSlug(s, nfkc) == s
  {
    NoSpaceStripIsIdentity(s);
    assert RemoveForbidden(s) == s;
    assert CollapseSpace(s) == s;
    NoDropTrimIsIdentity(s, IsUnderscore);
    assert SlugBody(s, nfkc) == s;
  }

  lemma NoSpaceStripIsIdentity(s: string)
    requires forall i :: 0 <= i < |s| ==> !IsSpace(s[i])
    ensures Strip(s) == s
  {
    NoDropTrimIsIdentity(s, IsSpace);
  }

  lemma NoDropTrimIsIdentity(s: string, drop: char -> bool)
    requires s == [] || (!drop(s[0]) && !drop(s[|s| - 1]))
    ensures Trim(s, drop) == s
  {
  }

  /** Deleting forbidden characters works piecewise. */
  lemma {:induction false} RemoveForbiddenConcat(x: string, y: string)
    ensures RemoveForbidden(x + y) == RemoveForbidden(x) + RemoveForbidden(y)
  {
    if x == [] {
      assert x + y == y;
    } else {
      ConcatHead(x, y);
      RemoveForbiddenConcat(x[1..], y);
      ConcatAssoc([x[0]], RemoveForbidden(x[1..]), RemoveForbidden(y));
    }
  }

  /** Deleting one forbidden character first changes nothing. */
  lemma RemoveOneForbidden(a: string, c: char, b: string)
    requires c in SlugForbidden
    ensures RemoveForbidden(a + [c] + b) == RemoveForbidden(a + b)
  {
    RemoveForbiddenConcat(a + [c], b);
    RemoveForbiddenConcat(a, [c]);
    assert [c][1..] == [];
    assert RemoveForbidden([c]) == [];
    assert RemoveForbidden(a) + [] == RemoveForbidden(a);
    RemoveForbiddenConcat(a, b);
  }

  lemma StripKeeps(t: string)
    requires t != [] && !IsSpace(t[0]) && !IsSpace(t[|t| - 1])
    ensures Strip(t) == t
  {
    NoDropTrimIsIdentity(t, IsSpace);
  }

  /** Titles that differ only by a forbidden character inside them share
      one slug, and so one output file on a given day ("Hello: World" and
      "Hello World" both give `Hello_World`). */
  lemma ForbiddenCharDoesNotChangeSlug(a: string, c: char, b: string, nfkc: string -> string)
    requires c in SlugForbidden
    requires a != [] && !IsSpace(a[0]) && b != [] && !IsSpace(b[|b| - 1])
    requires nfkc(a + [c] + b) == a + [c] + b && nfkc(a + b) == a + b
    ensures CreateTitleSlug(a + [c] + b, nfkc) == CreateTitleSlug(a + b, nfkc)
  {
    var t1, t2 := a + [c] + b, a + b;
    assert t1[0] == a[0] && t1[|t1| - 1] == b[|b| - 1];
    assert t2[0] == a[0] && t2[|t2| - 1] == b[|b| - 1];
    StripKeeps(t1);
    StripKeeps(t2);
    RemoveOneForbidden(a, c, b);
    assert SlugBody(t1, nfkc) == SlugBody(t2, nfkc);
  }

  /** Two words around one space, already slug text and left alone by
      normalisation, give the words joined by `_`. */
  lemma WordsJoinedByUnderscore(a: string, b: string, nfkc: string -> string)
    requires a != [] && b != [] && |a| + 1 + |b| <= MaxSlugLength
    requires forall i :: 0 <= i < |a| ==> IsSlugChar(a[i])
    requires forall i :: 0 <= i < |b| ==> IsSlugChar(b[i])
    requires a[0] != '_' && b[|b| - 1] != '_'
    requires nfkc(a + " " + b) == a + " " + b
    ensures CreateTitleSlug(a + " " + b, nfkc) == a + "_" + b
  {
    WordsSlugBody(a, b, nfkc);
  }

  lemma WordsSlugBody(a: string, b: string, nfkc: string -> string)
    requires a != [] && b != []
    requires forall i :: 0 <= i < |a| ==> IsSlugChar(a[i])
    requires forall i :: 0 <= i < |b| ==> IsSlugChar(b[i])
    requires a[0] != '_' && b[|b| - 1] != '_'
    requires nfkc(a + " " + b) == a + " " + b
    ensures SlugBody(a + " " + b, nfkc) == a + "_" + b
  {
    var t, u := a + " " + b, a + "_" + b;
    assert t[0] == a[0] && t[|t| - 1] == b[|b| - 1];
    StripKeeps(t);
    WordsCollapse(a, b);
    assert u[0] == a[0] && u[|u| - 1] == b[|b| - 1];
    NoDropTrimIsIdentity(u, IsUnderscore);
  }

  lemma WordsCollapse(a: string, b: string)
    requires a != [] && b != []
    requires forall i :: 0 <= i < |a| ==> IsSlugChar(a[i])
    requires forall i :: 0 <= i < |b| ==> IsSlugChar(b[i])
    ensures CollapseSpace(RemoveForbidden(a + " " + b)) == a + "_" + b
  {
    WordsKeepNoForbidden(a, b);
    NoForbiddenIsKept(a + " " + b);
    SlugTextIsCollapsed(a);
    SlugTextIsCollapsed(b);
    SpaceIsBlank();
    CollapseSpaceRun(a, " ", b);
  }

  /** Slug text has no whitespace, so the collapse leaves it alone. */
  lemma SlugTextIsCollapsed(s: string)
    requires s != [] && forall i :: 0 <= i < |s| ==> IsSlugChar(s[i])
    ensures !IsSpace(s[0]) && !IsSpace(s[|s| - 1]) && CollapseSpace(s) == s
  {
    assert IsSlugChar(s[0]) && IsSlugChar(s[|s| - 1]);
  }

  lemma SpaceIsBlank()
    ensures IsBlank(" ")
  {
  }

  lemma WordsKeepNoForbidden(a: string, b: string)
    requires forall i :: 0 <= i < |a| ==> IsSlugChar(a[i])
    requires forall i :: 0 <= i < |b| ==> IsSlugChar(b[i])
    ensures forall i :: 0 <= i < |a + " " + b| ==> (a + " " + b)[i] !in SlugForbidden
  {
    var t := a + " " + b;
    forall i | 0 <= i < |t| ensures t[i] !in SlugForbidden {
      if i < |a| {
        assert t[i] == a[i] && IsSlugChar(a[i]);
      } else if i == |a| {
        assert t[i] == ' ';
      } else {
        assert t[i] == b[i - |a| - 1] && IsSlugChar(b[i - |a| - 1]);
      }
    }
  }

  lemma NoForbiddenIsKept(t: string)
    requires forall i :: 0 <= i < |t| ==> t[i] !in SlugForbidden
    ensures RemoveForbidden(t) == t
  {
  }

  lemma HelloIsSlugText()
    ensures forall i :: 0 <= i < |"Hello,"| ==> IsSlugChar("Hello,"[i])
    ensures forall i :: 0 <= i < |"Hello"| ==> IsSlugChar("Hello"[i])
  {
    forall i | 0 <= i < |"Hello,"| ensures IsSlugChar("Hello,"[i]) {
      if i == 0 {} else if i == 1 {} else if i == 2 {} else if i == 3 {} else if i == 4 {} else {}
    }
  }

  lemma WorldIsSlugText()
    ensures forall i :: 0 <= i < |"World!"| ==> IsSlugChar("World!"[i])
    ensures forall i :: 0 <= i < |"World"| ==> IsSlugChar("World"[i])
  {
    forall i | 0 <= i < |"World!"| ensures IsSlugChar("World!"[i]) {
      if i == 0 {} else if i == 1 {} else if i == 2 {} else if i == 3 {} else if i == 4 {} else {}
    }
  }

  /** The slug keeps `,` and `!`: "Hello, World!" and "Hello World" get
      different slugs, hence different files. */
  lemma PunctuationChangesSlug(nfkc: string -> string)
    requires nfkc("Hello, World!") == "Hello, World!" && nfkc("Hello World") == "Hello World"
    ensures CreateTitleSlug("Hello, World!", nfkc) == "Hello,_World!"
    ensures CreateTitleSlug("Hello World", nfkc) == "Hello_World"
    ensures CreateTitleSlug("Hello, World!", nfkc) != CreateTitleSlug("Hello World", nfkc)
  {
    PunctuatedSlug(nfkc);
    PlainSlug(nfkc);
    assert |"Hello,_World!"| != |"Hello_World"|;
  }

  lemma PunctuatedSlug(nfkc: string -> string)
    requires nfkc("Hello, World!") == "Hello, World!"
    ensures CreateTitleSlug("Hello, World!", nfkc) == "Hello,_World!"
  {
    HelloIsSlugText();
    WorldIsSlugText();
    assert "Hello, World!" == "Hello," + " " + "World!";
    assert "Hello,_World!" == "Hello," + "_" + "World!";
    WordsJoinedByUnderscore("Hello,", "World!", nfkc);
  }

  lemma PlainSlug(nfkc: string -> string)
    requires nfkc("Hello World") == "Hello World"
    ensures CreateTitleSlug("Hello World", nfkc) == "Hello_World"
  {
    HelloIsSlugText();
    WorldIsSlugText();
    assert "Hello World" == "Hello" + " " + "World";
    assert "Hello_World" == "Hello" + "_" + "World";
    WordsJoinedByUnderscore("Hello", "World", nfkc);
  }

  // ---------------------------------------------------------------------
  // create_output_filename (src/utils.py:51-59)
  // ---------------------------------------------------------------------

  datatype Date = Date(year: int, month: int, day: int)

  /** A calendar date whose year `%Y` prints with four digits. */
  type ValidDate = d: Date | 1000 <= d.year <= 9999 && 1 <= d.month <= 12 && 1 <= d.day <= 31
    witness Date(2000, 1, 1)

  predicate IsDigit(c: char) { '0' <= c <= '9' }

  function DigitChar(d: nat): (c: char)
    requires d < 10
    ensures IsDigit(c)
  {
    ['0', '1', '2', '3', '4', '5', '6', '7', '8', '9'][d]
  }

  function Pow10(n: nat): (p: nat)
    ensures p > 0
  {
    if n == 0 then 1 else 10 * Pow10(n - 1)
  }

  /** `n` printed in exactly `width` decimal digits, zero-padded. */
  function Pad(n: nat, width: nat): (s: string)
    requires n < Pow10(width)
    ensures |s| == width && forall i :: 0 <= i < |s| ==> IsDigit(s[i])
  {
    if width == 0 then "" else Pad(n / 10, width - 1) + [DigitChar(n % 10)]
  }

  /** The value of a string of decimal digits. */
  function ParseDigits(s: string): int
    requires forall i :: 0 <= i < |s| ==> IsDigit(s[i])
  {
    if s == [] then 0 else 10 * ParseDigits(s[..|s| - 1]) + (s[|s| - 1] as int - '0' as int)
  }

  /** Reading the padded digits back gives the number. */
  lemma {:induction false} ParsePad(n: nat, width: nat)
    requires n < Pow10(width)
    ensures ParseDigits(Pad(n, width)) == n
  {
    if width > 0 {
      var s := Pad(n, width);
      assert s[..|s| - 1] == Pad(n / 10, width - 1);
      ParsePad(n / 10, width - 1);
      assert DigitChar(n % 10) as int - '0' as int == n % 10;
    }
  }

  /** `date.strftime("%Y%m%d")`. */
  function FormatDate(d: ValidDate): (s: string)
    ensures |s| == 8 && forall i :: 0 <= i < |s| ==> IsDigit(s[i])
  {
    assert Pow10(2) == 100 && Pow10(4) == 10000;
    Pad(d.year, 4) + Pad(d.month, 2) + Pad(d.day, 2)
  }

  /** Reads a date back from its eight digits. */
  function ParseDate(s: string): Date
    requires |s| == 8 && forall i :: 0 <= i < |s| ==> IsDigit(s[i])
  {
    Date(ParseDigits(s[..4]), ParseDigits(s[4..6]), ParseDigits(s[6..]))
  }

  lemma {:induction false} DateRoundTrip(d: ValidDate)
    ensures ParseDate(FormatDate(d)) == d
  {
    var s := FormatDate(d);
    assert s[..4] == Pad(d.year, 4);
    assert s[4..6] == Pad(d.month, 2);
    assert s[6..] == Pad(d.day, 2);
    assert Pow10(2) == 100 && Pow10(4) == 10000;
    ParsePad(d.year, 4);
    ParsePad(d.month, 2);
    ParsePad(d.day, 2);
  }

  /** `create_output_filename(title, date)`: `YYYYMMDD_<slug>.md`. */
  function CreateOutputFilename(title: string, date: ValidDate, nfkc: string -> string): (name: string)
    ensures 13 <= |name| <= 8 + 1 + MaxSlugLength + 3
    ensures forall i :: 0 <= i < 8 ==> IsDigit(name[i])
    ensures name[8] == '_' && name[|name| - 3..] == ".md"
    ensures ParseDate(name[..8]) == date
    ensures name[9..|name| - 3] == CreateTitleSlug(title, nfkc)
  {
    var digits, slug := FormatDate(date), CreateTitleSlug(title, nfkc);
    FilenameParts(digits, slug);
    DateRoundTrip(date);
    digits + "_" + slug + ".md"
  }

  /** Where the date, the `_`, the slug and the extension sit in a filename. */
  lemma FilenameParts(digits: string, slug: string)
    requires |digits| == 8 && forall i :: 0 <= i < 8 ==> IsDigit(digits[i])
    requires 0 < |slug| <= MaxSlugLength
    ensures var name := digits + "_" + slug + ".md";
            13 <= |name| <= 8 + 1 + MaxSlugLength + 3 &&
            (forall i :: 0 <= i < 8 ==> IsDigit(name[i])) &&
            name[8] == '_' && name[|name| - 3..] == ".md" &&
            name[..8] == digits && name[9..|name| - 3] == slug
  {
    var name := digits + "_" + slug + ".md";
    assert forall i :: 0 <= i < 8 ==> name[i] == digits[i];
  }

  /** Two titles get the same filename on the same date exactly when they get the same slug. */
  lemma FilenameCollision(t1: string, t2: string, date: ValidDate, nfkc: string -> string)
    ensures CreateOutputFilename(t1, date, nfkc) == CreateOutputFilename(t2, date, nfkc) <==>
            CreateTitleSlug(t1, nfkc) == CreateTitleSlug(t2, nfkc)
  {
    var n1, n2 := CreateOutputFilename(t1, date, nfkc), CreateOutputFilename(t2, date, nfkc);
    if n1 == n2 {
      assert n1[9..|n1| - 3] == n2[9..|n2| - 3];
    }
  }

  // ---------------------------------------------------------------------
  // sanitize_markdown_content (src/utils.py:62-83)
  // ---------------------------------------------------------------------

  /** `s.split(sep)`: the pieces between separators, at least one. */
  function Split(s: string, sep: char): (parts: seq<string>)
    ensures |parts| >= 1
    ensures forall k :: 0 <= k < |parts| ==> sep !in parts[k]
  {
    if s == [] then [""]
    else
      var rest := Split(s[1..], sep);
      if s[0] == sep then [""] + rest else [[s[0]] + rest[0]] + rest[1..]
  }

  /** Text without the separator splits into a single piece. */
  lemma {:induction false} SplitWithoutSeparator(s: string, sep: char)
    requires sep !in s
    ensures Split(s, sep) == [s]
  {
    if s != [] {
      SplitWithoutSeparator(s[1..], sep);
      assert [s[0]] + s[1..] == s;
    }
  }

  /** `sep.join(parts)`. */
  function Join(parts: seq<string>, sep: char): string {
    if parts == [] then ""
    else if |parts| == 1 then parts[0]
    else parts[0] + [sep] + Join(parts[1..], sep)
  }

  /** Joining the pieces of a split gives back the original text. */
  lemma {:induction false} JoinSplit(s: string, sep: char)
    ensures Join(Split(s, sep), sep) == s
  {
    if s != [] {
      JoinSplit(s[1..], sep);
      var rest := Split(s[1..], sep);
      if s[0] != sep {
        if |rest| == 1 {
          assert Join(rest, sep) == rest[0];
        } else {
          assert Join(rest, sep) == rest[0] + [sep] + Join(rest[1..], sep);
          assert [[s[0]] + rest[0]] + rest[1..] == [[s[0]] + rest[0]] + rest[1..];
        }
      }
    }
  }

  /** The per-line rewrite of the loop in `sanitize_markdown_content`: trailing
      whitespace goes, and a `#` line that is neither `# ...` nor `## ...` is
      rewritten as `# ` followed by its stripped remainder. */
  function FixLine(raw: string): (line: string)
    ensures StartsWith(line, "#") <==> StartsWith(TrimEnd(raw, IsSpace), "#")
    ensures StartsWith(line, "#") ==> StartsWith(line, "# ") || StartsWith(line, "## ")
    ensures var l := TrimEnd(raw, IsSpace);
            StartsWith(l, "#") && !StartsWith(l, "# ") && !StartsWith(l, "## ") ==>
              line == "# " + Strip(l[1..])
    ensures var l := TrimEnd(raw, IsSpace);
            StartsWith(l, "# ") || StartsWith(l, "## ") ==> line == l
    ensures !StartsWith(TrimEnd(raw, IsSpace), "#") ==> line == TrimEnd(raw, IsSpace)
  {
    var l := TrimEnd(raw, IsSpace);
    if StartsWith(l, "#") then
      if !StartsWith(l, "# ") && !StartsWith(l, "## ") then
        if StartsWith(l, "#") then "# " + Strip(l[1..])
        else if StartsWith(l, "##") then
          // the `elif line.startswith('##')` branch: the enclosing test already
          // established that the line starts with `#`, so this is dead code
          assert false; l
        else l
      else l
    else l
  }

  function FixLines(lines: seq<string>): (r: seq<string>)
    ensures |r| == |lines| && forall k :: 0 <= k < |lines| ==> r[k] == FixLine(lines[k])
  {
    seq(|lines|, k requires 0 <= k < |lines| => FixLine(lines[k]))
  }

  /** The lines rewritten one by one are the rewritten lines. */
  lemma FixedLinesAre(lines: seq<string>, fixed: seq<string>)
    requires |fixed| == |lines| && forall k :: 0 <= k < |lines| ==> fixed[k] == FixLine(lines[k])
    ensures fixed == FixLines(lines)
  {
  }

  /** No three newlines in a row. */
  predicate TripleNewlineAt(s: string, i: int) {
    0 <= i && i + 2 < |s| && s[i] == '\n' && s[i + 1] == '\n' && s[i + 2] == '\n'
  }

  predicate NoTripleNewline(s: string) {
    forall i :: 0 <= i < |s| ==> !TripleNewlineAt(s, i)
  }

  /** `re.sub(r'\n{3,}', '\n\n', s)`: every run of three or more newlines becomes two. */
  function CollapseBlankRuns(s: string): (r: string)
    ensures s != [] ==> r != [] && r[0] == s[0]
    ensures |r| <= |s|
    decreases |s|
  {
    if s == [] then []
    else if s[0] == '\n' then
      var rest := TrimStart(s, IsNewline);
      var run := |s| - |rest|;
      (if run >= 3 then "\n\n" else s[..run]) + CollapseBlankRuns(rest)
    else [s[0]] + CollapseBlankRuns(s[1..])
  }

  /** A text that does not end in a newline ends every newline run in it, so
      the collapse works on it and on what follows separately. */
  lemma {:induction false} CollapseBlankRunsConcat(x: string, y: string)
    requires x == [] || x[|x| - 1] != '\n'
    ensures CollapseBlankRuns(x + y) == CollapseBlankRuns(x) + CollapseBlankRuns(y)
    decreases |x|
  {
    if x == [] {
      assert x + y == y;
    } else if x[0] == '\n' {
      var t, k := TrimStart(x, IsNewline), Lead(x, IsNewline);
      LeadBeforeLast(x, IsNewline);
      CollapseBlankRunsConcat(t, y);
      CollapseBlankRunsAfterRun(x, y);
      ConcatAssoc(if k >= 3 then "\n\n" else x[..k], CollapseBlankRuns(t), CollapseBlankRuns(y));
    } else {
      CollapseBlankRunsAfterChar(x, y);
      CollapseBlankRunsConcat(x[1..], y);
      ConcatAssoc([x[0]], CollapseBlankRuns(x[1..]), CollapseBlankRuns(y));
    }
  }

  /** One step of the collapse on `x + y` when `x` starts with a run of
      newlines that ends inside `x`. */
  lemma CollapseBlankRunsAfterRun(x: string, y: string)
    requires x != [] && x[0] == '\n' && Lead(x, IsNewline) < |x|
    ensures var k := Lead(x, IsNewline);
            var head := if k >= 3 then "\n\n" else x[..k];
            CollapseBlankRuns(x + y) == head + CollapseBlankRuns(TrimStart(x, IsNewline) + y) &&
            CollapseBlankRuns(x) == head + CollapseBlankRuns(TrimStart(x, IsNewline))
  {
    TrimStartConcat(x, y, IsNewline);
    ConcatHead(x, y);
    DropConcat(x, y, Lead(x, IsNewline));
  }

  /** One step of the collapse on `x + y` when `x` starts with a character
      other than a newline. */
  lemma CollapseBlankRunsAfterChar(x: string, y: string)
    requires x != [] && x[0] != '\n'
    ensures CollapseBlankRuns(x + y) == [x[0]] + CollapseBlankRuns(x[1..] + y)
    ensures CollapseBlankRuns(x) == [x[0]] + CollapseBlankRuns(x[1..])
  {
    ConcatHead(x, y);
  }

  /** A maximal run of newlines becomes exactly `\n\n` when it has three or
      more, and is kept as it is otherwise; the text on either side of it is
      collapsed on its own. */
  lemma CollapseBlankRunsRun(a: string, n: string, b: string)
    requires a == [] || a[|a| - 1] != '\n'
    requires n != [] && forall i :: 0 <= i < |n| ==> n[i] == '\n'
    requires b == [] || b[0] != '\n'
    ensures CollapseBlankRuns(a + n + b) ==
            CollapseBlankRuns(a) + (if |n| >= 3 then "\n\n" else n) + CollapseBlankRuns(b)
  {
    var head := if |n| >= 3 then "\n\n" else n;
    ConcatAssoc(a, n, b);
    CollapseBlankRunsConcat(a, n + b);
    CollapseBlankRunsLeadingRun(n, b);
    ConcatAssoc(CollapseBlankRuns(a), head, CollapseBlankRuns(b));
  }

  /** A text that opens with a whole run of newlines collapses to that run,
      or to `\n\n` when it has three or more, and the rest. */
  lemma CollapseBlankRunsLeadingRun(n: string, b: string)
    requires n != [] && forall i :: 0 <= i < |n| ==> n[i] == '\n'
    requires b == [] || b[0] != '\n'
    ensures CollapseBlankRuns(n + b) == (if |n| >= 3 then "\n\n" else n) + CollapseBlankRuns(b)
  {
    TrimStartSkips(n, b, IsNewline);
    var t := n + b;
    ConcatHead(n, b);
    DropConcat(n, b, |n|);
    assert n[..|n|] == n;
    assert |t| - |TrimStart(t, IsNewline)| == |n|;
  }

  /** A string of at most two newlines followed by a string without triple
      newlines that does not start with one has no triple newline. */
  lemma ShortRunThenTail(head: string, tail: string)
    requires |head| <= 2 && forall i :: 0 <= i < |head| ==> head[i] == '\n'
    requires tail == [] || tail[0] != '\n'
    requires NoTripleNewline(tail)
    ensures NoTripleNewline(head + tail)
  {
    var r := head + tail;
    forall i | 0 <= i < |r| - 2
      ensures !TripleNewlineAt(r, i)
    {
      if i + 2 >= |head| && i < |head| {
        assert r[|head|] == tail[0];
      } else if i >= |head| {
        assert r[i] == tail[i - |head|] && r[i + 1] == tail[i + 1 - |head|] &&
               r[i + 2] == tail[i + 2 - |head|];
        assert !TripleNewlineAt(tail, i - |head|);
      }
    }
  }

  /** After collapsing, no run of three newlines is left. */
  lemma {:induction false} CollapseLeavesNoTriple(s: string)
    ensures NoTripleNewline(CollapseBlankRuns(s))
    decreases |s|
  {
    if s == [] {
    } else if s[0] == '\n' {
      var rest := TrimStart(s, IsNewline);
      var run := |s| - |rest|;
      var head := if run >= 3 then "\n\n" else s[..run];
      assert CollapseBlankRuns(s) == head + CollapseBlankRuns(rest);
      CollapseLeavesNoTriple(rest);
      ShortRunThenTail(head, CollapseBlankRuns(rest));
    } else {
      assert CollapseBlankRuns(s) == [s[0]] + CollapseBlankRuns(s[1..]);
      CollapseLeavesNoTriple(s[1..]);
      OtherThenTail(s[0], CollapseBlankRuns(s[1..]));
    }
  }

  /** A character other than a newline in front of text without triple
      newlines adds none. */
  lemma OtherThenTail(c: char, tail: string)
    requires c != '\n' && NoTripleNewline(tail)
    ensures NoTripleNewline([c] + tail)
  {
    var r := [c] + tail;
    forall i | 0 <= i < |r| - 2
      ensures !TripleNewlineAt(r, i)
    {
      if i > 0 {
        assert r[i] == tail[i - 1] && r[i + 1] == tail[i] && r[i + 2] == tail[i + 1];
        assert !TripleNewlineAt(tail, i - 1);
      }
    }
  }

  /** Text that has no run of three newlines is left as it is. */
  lemma {:induction false} CollapseKeepsShortRuns(s: string)
    requires NoTripleNewline(s)
    ensures CollapseBlankRuns(s) == s
    decreases |s|
  {
    if s == [] {
    } else if s[0] == '\n' {
      var rest := TrimStart(s, IsNewline);
      var run := |s| - |rest|;
      ShortNewlineRun(s);
      InfixKeepsNoTripleNewline(s, run, |rest|);
      assert s[run..run + |rest|] == rest;
      CollapseKeepsShortRuns(rest);
      ShortRunCollapse(s);
    } else {
      InfixKeepsNoTripleNewline(s, 1, |s| - 1);
      assert s[1..1 + (|s| - 1)] == s[1..];
      CollapseKeepsShortRuns(s[1..]);
      assert CollapseBlankRuns(s) == [s[0]] + s[1..];
    }
  }

  /** A leading run of fewer than three newlines is kept as it is. */
  lemma ShortRunCollapse(s: string)
    requires s != [] && s[0] == '\n'
    requires |s| - |TrimStart(s, IsNewline)| < 3
    requires CollapseBlankRuns(TrimStart(s, IsNewline)) == TrimStart(s, IsNewline)
    ensures CollapseBlankRuns(s) == s
  {
    var rest := TrimStart(s, IsNewline);
    var run := |s| - |rest|;
    assert CollapseBlankRuns(s) == s[..run] + rest;
    assert s == s[..run] + s[run..];
  }

  /** Without triple newlines, a leading run of newlines is shorter than three. */
  lemma ShortNewlineRun(s: string)
    requires NoTripleNewline(s)
    ensures |s| - |TrimStart(s, IsNewline)| < 3
  {
    var run := |s| - |TrimStart(s, IsNewline)|;
    if |s| >= 3 {
      assert !TripleNewlineAt(s, 0);
      assert run >= 3 ==> IsNewline(s[0]) && IsNewline(s[1]) && IsNewline(s[2]);
    }
  }

  /** What `sanitize_markdown_content` returns for `content`. */
  function Sanitized(content: string): (r: string)
    ensures r == [] || (!IsSpace(r[0]) && !IsSpace(r[|r| - 1]))
  {
    Strip(CollapseBlankRuns(Join(FixLines(Split(content, '\n')), '\n')))
  }

  /** A piece cut out of a string without triple newlines has none either. */
  lemma InfixKeepsNoTripleNewline(s: string, k: nat, n: nat)
    requires k + n <= |s| && NoTripleNewline(s)
    ensures NoTripleNewline(s[k..k + n])
  {
    var t := s[k..k + n];
    forall i | 0 <= i < |t| - 2
      ensures !TripleNewlineAt(t, i)
    {
      assert t[i] == s[k + i] && t[i + 1] == s[k + i + 1] && t[i + 2] == s[k + i + 2];
      assert !TripleNewlineAt(s, k + i);
    }
  }

  /** The sanitised document has no whitespace at either end and no run of
      three or more newlines. */
  lemma SanitizedShape(content: string)
    ensures var r := Sanitized(content);
            (r == [] || (!IsSpace(r[0]) && !IsSpace(r[|r| - 1]))) && NoTripleNewline(r)
  {
    var joined := Join(FixLines(Split(content, '\n')), '\n');
    CollapseLeavesNoTriple(joined);
    StripKeepsNoTriple(CollapseBlankRuns(joined));
  }

  lemma StripKeepsNoTriple(c: string)
    requires NoTripleNewline(c)
    ensures NoTripleNewline(Strip(c))
  {
    InfixKeepsNoTripleNewline(c, Lead(c, IsSpace), |Strip(c)|);
  }

  /** Text without newlines is not touched by the blank-run collapse. */
  lemma {:induction false} CollapseWithoutNewline(s: string)
    requires '\n' !in s
    ensures CollapseBlankRuns(s) == s
  {
    if s != [] {
      CollapseWithoutNewline(s[1..]);
    }
  }

  /** Leading characters that are all dropped are all trimmed. */
  lemma {:induction false} TrimStartSkips(p: string, t: string, drop: char -> bool)
    requires forall i :: 0 <= i < |p| ==> drop(p[i])
    requires t == [] || !drop(t[0])
    ensures Lead(p + t, drop) == |p| && TrimStart(p + t, drop) == t
    decreases |p|
  {
    if p == [] {
      assert p + t == t;
    } else {
      ConcatHead(p, t);
      TrimStartSkips(p[1..], t, drop);
    }
  }

  /** A document of one line is that line rewritten, then stripped. */
  lemma SanitizedSingleLine(line: string)
    requires '\n' !in line && '\n' !in FixLine(line)
    ensures Sanitized(line) == Strip(FixLine(line))
  {
    SplitWithoutSeparator(line, '\n');
    assert FixLines([line]) == [FixLine(line)];
    CollapseWithoutNewline(FixLine(line));
  }

  /** An indented `#c` is not a heading line, so the heading rule leaves it;
      the final strip then exposes `#c`. */
  lemma SanitizedIndentedHash(c: char)
    requires !IsSpace(c)
    ensures Sanitized([' ', '#', c]) == ['#', c]
  {
    SanitizedIndentedIsStripped(c);
    StripIndentedHash(c);
  }

  lemma SanitizedIndentedIsStripped(c: char)
    requires !IsSpace(c)
    ensures Sanitized([' ', '#', c]) == Strip([' ', '#', c])
  {
    FixIndentedHash(c);
    SanitizedSingleLine([' ', '#', c]);
  }

  lemma StripIndentedHash(c: char)
    requires !IsSpace(c)
    ensures Strip([' ', '#', c]) == ['#', c]
  {
    assert [' ', '#', c] == [' '] + ['#', c];
    StripIndent([' '], ['#', c]);
  }

  /** Stripping removes an indent in front of a stripped text. */
  lemma StripIndent(p: string, t: string)
    requires forall i :: 0 <= i < |p| ==> IsSpace(p[i])
    requires t != [] && !IsSpace(t[0]) && !IsSpace(t[|t| - 1])
    ensures Strip(p + t) == t
  {
    TrimStartSkips(p, t, IsSpace);
    NoDropTrimIsIdentity(t, IsSpace);
  }

  /** The heading rule leaves an indented `#c` alone. */
  lemma FixIndentedHash(c: char)
    requires !IsSpace(c)
    ensures FixLine([' ', '#', c]) == [' ', '#', c]
  {
    var s := [' ', '#', c];
    assert Kept(s, IsSpace) == |s|;
    assert TrimEnd(s, IsSpace) == s;
    assert !StartsWith(s, "#") by {
      assert s[..1] == [' '];
    }
  }

  /** The heading rule puts a space after a bare `#`. */
  lemma FixBareHash(c: char)
    requires !IsSpace(c)
    ensures FixLine(['#', c]) == ['#', ' ', c]
  {
    var s := ['#', c];
    var l := TrimEnd(s, IsSpace);
    assert l == s;
    assert c != ' ';
    assert s[..1] == "#" && s[..2] != "# " && |s| < |"## "|;
    assert StartsWith(l, "#") && !StartsWith(l, "# ") && !StartsWith(l, "## ");
    NoDropTrimIsIdentity([c], IsSpace);
    assert l[1..] == [c] && Strip([c]) == [c];
    assert FixLine(s) == "# " + [c];
  }

  /** A `##c` line is not given `## c`: the `elif` for `##` is never reached,
      so the first `#` is split off and the rest kept, giving `# #c`. */
  lemma FixDoubleHash(c: char)
    requires !IsSpace(c)
    ensures FixLine(['#', '#', c]) == ['#', ' ', '#', c]
  {
    var s := ['#', '#', c];
    assert Kept(s, IsSpace) == |s|;
    assert TrimEnd(s, IsSpace) == s;
    assert s[..1] == "#";
    assert s[..2][1] == '#' && "# "[1] == ' ';
    assert c != ' ' && s[..3][2] == c && "## "[2] == ' ';
    NoDropTrimIsIdentity(['#', c], IsSpace);
    assert s[1..] == ['#', c];
  }

  /** A `#c` line without a space gets one. */
  lemma SanitizedBareHash(c: char)
    requires !IsSpace(c)
    ensures Sanitized(['#', c]) == ['#', ' ', c]
  {
    FixBareHash(c);
    SanitizedSingleLine(['#', c]);
    var fixed := ['#', ' ', c];
    StripKeeps(fixed);
    assert Sanitized(['#', c]) == Strip(fixed);
  }

  /** Sanitising is not idempotent: the heading rule runs before the final strip,
      so a second pass rewrites a heading the first pass exposed. */
  lemma SanitizeIsNotIdempotent(c: char)
    requires !IsSpace(c)
    ensures Sanitized(Sanitized([' ', '#', c])) != Sanitized([' ', '#', c])
  {
    SanitizedIndentedHash(c);
    SanitizedBareHash(c);
  }

  /** `sanitize_markdown_content`: rewrites each line, joins them, collapses
      blank runs and strips the document. */
  method SanitizeMarkdownContent(content: string) returns (r: string)
    ensures r == Sanitized(content)
    ensures r == [] || (!IsSpace(r[0]) && !IsSpace(r[|r| - 1]))
    ensures NoTripleNewline(r)
  {
    var lines := Split(content, '\n');
    var sanitizedLines: seq<string> := [];
    for i := 0 to |lines|
      invariant |sanitizedLines| == i
      invariant forall k :: 0 <= k < i ==> sanitizedLines[k] == FixLine(lines[k])
    {
      var line := FixLine(lines[i]);
      sanitizedLines := sanitizedLines + [line];
    }
    FixedLinesAre(lines, sanitizedLines);
    var joined := Join(sanitizedLines, '\n');
    var collapsed := CollapseBlankRuns(joined);
    r := Strip(collapsed);
    SanitizedShape(content);
  }
}
