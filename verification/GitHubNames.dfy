/** Lease names for pull requests (internal/sourcewebhook/github_identity.go). */
module GitHubNames {

  // --------------------------------------------------------------- characters

  predicate Alnum(c: char) {
    'a' <= c <= 'z' || '0' <= c <= '9'
  }

  /** unicode.ToLower, as far as it reaches ASCII: besides A-Z, the Kelvin sign and
      the dotted capital I have ASCII lower cases. */
  function Lower(c: char): char {
    if 'A' <= c <= 'Z' then c - 'A' + 'a'
    else if c == '\U{212A}' then 'k'
    else if c == '\U{130}' then 'i'
    else c
  }

  predicate IsSpace(c: char) {
    c in {'\t', '\n', '\U{B}', '\U{C}', '\r', ' ', '\U{85}', '\U{A0}', '\U{1680}', '\U{2028}', '\U{2029}', '\U{202F}',
          '\U{205F}', '\U{3000}'}
    || '\U{2000}' <= c <= '\U{200A}'
  }

  function ToLower(s: string): (r: string)
    ensures |r| == |s| && forall i :: 0 <= i < |s| ==> r[i] == Lower(s[i])
  {
    if s == "" then "" else [Lower(s[0])] + ToLower(s[1..])
  }

  // ---------------------------------------------------------- library strings

  function TrimLeft(s: string, cut: char -> bool): string {
    if s != "" && cut(s[0]) then TrimLeft(s[1..], cut) else s
  }

  function TrimRight(s: string, cut: char -> bool): string {
    if s != "" && cut(s[|s| - 1]) then TrimRight(s[..|s| - 1], cut) else s
  }

  function Trim(s: string, cut: char -> bool): string {
    TrimRight(TrimLeft(s, cut), cut)
  }

  predicate IsDash(c: char) {
    c == '-'
  }

  /** ReplaceAll of "_" by "-". */
  function Underscores(s: string): string {
    if s == "" then "" else [if s[0] == '_' then '-' else s[0]] + Underscores(s[1..])
  }

  /** Every run of characters outside a-z, 0-9 and '-' becomes one '-'. */
  function Foreign(s: string): string {
    if s == "" then ""
    else if Alnum(s[0]) || s[0] == '-' then [s[0]] + Foreign(s[1..])
    else if |s| > 1 && !Alnum(s[1]) && s[1] != '-' then Foreign(s[1..])
    else "-" + Foreign(s[1..])
  }

  /** ReplaceAll of "--" by "-": left to right, without overlaps. */
  function Halved(s: string): string {
    if |s| >= 2 && s[0] == '-' && s[1] == '-' then "-" + Halved(s[2..])
    else if s == "" then ""
    else [s[0]] + Halved(s[1..])
  }

  predicate DoubleDash(s: string) {
    exists i :: 0 <= i < |s| - 1 && s[i] == '-' && s[i + 1] == '-'
  }

  // -------------------------------------------------------------- one-pass form

  /** the label so far, and whether a separator waits for the next character. */
  datatype Scan = Scan(slug: string, gap: bool)

  const NOTHING := Scan("", false)

  function Read(s: Scan, c: char): Scan {
    if Alnum(Lower(c)) then Scan(s.slug + (if s.gap then "-" else "") + [Lower(c)], false)
    else Scan(s.slug, s.slug != "")
  }

  function ReadAll(s: Scan, text: string): Scan
    decreases |text|
  {
    if text == "" then s else ReadAll(Read(s, text[0]), text[1..])
  }

  /** The slug in one pass: lower-cased letters and digits, every stretch of
      anything else between two of them turned into one '-'. */
  function Label(text: string): string {
    ReadAll(NOTHING, text).slug
  }

  lemma {:induction false} ReadConcat(s: Scan, a: string, b: string)
    ensures ReadAll(s, a + b) == ReadAll(ReadAll(s, a), b)
    decreases |a|
  {
    if a == "" {
      assert a + b == b;
    } else {
      assert (a + b)[0] == a[0] && (a + b)[1..] == a[1..] + b;
      ReadConcat(Read(s, a[0]), a[1..], b);
    }
  }

  lemma ReadLast(s: Scan, a: string, c: char)
    ensures ReadAll(s, a + [c]) == Read(ReadAll(s, a), c)
  {
    ReadConcat(s, a, [c]);
    assert ReadAll(ReadAll(s, a), [c]) == ReadAll(Read(ReadAll(s, a), c), []);
  }

  lemma {:induction false} LowerKeepsLabel(s: Scan, text: string)
    ensures ReadAll(s, ToLower(text)) == ReadAll(s, text)
    decreases |text|
  {
    if text != "" {
      assert ToLower(text)[1..] == ToLower(text[1..]);
      LowerKeepsLabel(Read(s, text[0]), text[1..]);
    }
  }

  lemma {:induction false} UnderscoresKeepLabel(s: Scan, text: string)
    ensures ReadAll(s, Underscores(text)) == ReadAll(s, text)
    decreases |text|
  {
    if text != "" {
      assert Underscores(text)[1..] == Underscores(text[1..]);
      UnderscoresKeepLabel(Read(s, text[0]), text[1..]);
    }
  }

  predicate Lowered(text: string) {
    forall i :: 0 <= i < |text| ==> Lower(text[i]) == text[i]
  }

  lemma {:induction false} ForeignKeepsLabel(s: Scan, text: string)
    requires Lowered(text)
    ensures ReadAll(s, Foreign(text)) == ReadAll(s, text)
    decreases |text|
  {
    if text != "" {
      var rest := text[1..];
      if !Alnum(text[0]) && text[0] != '-' && |text| > 1 && !Alnum(text[1]) && text[1] != '-' {
        ForeignKeepsLabel(s, rest);
        assert Read(Read(s, text[0]), text[1]) == Read(s, text[1]);
        assert rest[0] == text[1] && ReadAll(s, rest) == ReadAll(Read(s, rest[0]), rest[1..]);
        assert ReadAll(Read(s, text[0]), rest) == ReadAll(Read(Read(s, text[0]), rest[0]), rest[1..]);
      } else {
        ForeignKeepsLabel(Read(s, text[0]), rest);
        assert Foreign(text)[1..] == Foreign(rest);
      }
    }
  }

  lemma {:induction false} HalvedKeepsLabel(s: Scan, text: string)
    ensures ReadAll(s, Halved(text)) == ReadAll(s, text)
    decreases |text|
  {
    if |text| >= 2 && text[0] == '-' && text[1] == '-' {
      HalvedKeepsLabel(Read(s, '-'), text[2..]);
      assert Halved(text)[1..] == Halved(text[2..]);
      assert text[1..][0] == '-' && text[1..][1..] == text[2..];
    } else if text != "" {
      HalvedKeepsLabel(Read(s, text[0]), text[1..]);
      assert Halved(text)[1..] == Halved(text[1..]);
    }
  }

  lemma {:induction false} HalvedShrinks(text: string)
    ensures |Halved(text)| <= |text|
    ensures DoubleDash(text) ==> |Halved(text)| < |text|
  {
    if |text| >= 2 && text[0] == '-' && text[1] == '-' {
      HalvedShrinks(text[2..]);
    } else if text != "" {
      HalvedShrinks(text[1..]);
      if i :| 0 <= i < |text| - 1 && text[i] == '-' && text[i + 1] == '-' {
        assert text[1..][i - 1] == '-' && text[1..][i] == '-';
      }
    }
  }

  /** Trimming characters that are no letters or digits changes nothing. */
  lemma {:induction false} TrimLeftKeepsLabel(text: string, cut: char -> bool)
    requires forall c :: cut(c) ==> !Alnum(Lower(c))
    ensures Label(TrimLeft(text, cut)) == Label(text)
  {
    if text != "" && cut(text[0]) {
      TrimLeftKeepsLabel(text[1..], cut);
    }
  }

  lemma {:induction false} TrimRightKeepsLabel(text: string, cut: char -> bool)
    requires forall c :: cut(c) ==> !Alnum(Lower(c))
    ensures Label(TrimRight(text, cut)) == Label(text)
  {
    if text != "" && cut(text[|text| - 1]) {
      var init := text[..|text| - 1];
      TrimRightKeepsLabel(init, cut);
      assert text == init + [text[|text| - 1]];
      ReadLast(NOTHING, init, text[|text| - 1]);
    }
  }

  /** Letters and digits inside, single dashes between them. */
  predicate Slug(s: string) {
    && (forall i :: 0 <= i < |s| ==> Alnum(s[i]) || s[i] == '-')
    && !DoubleDash(s)
    && (s != "" ==> s[0] != '-' && s[|s| - 1] != '-')
  }

  /** A text of the slug alphabet that starts with no dash and has no two in a
      row is read as it stands, a trailing dash left waiting. */
  lemma {:induction false} SlugIsRead(s: string)
    requires forall i :: 0 <= i < |s| ==> Alnum(s[i]) || s[i] == '-'
    requires !DoubleDash(s) && (s != "" ==> s[0] != '-')
    ensures ReadAll(NOTHING, s) ==
              if s != "" && s[|s| - 1] == '-' then Scan(s[..|s| - 1], true) else Scan(s, false)
  {
    if s != "" {
      var init, last := s[..|s| - 1], s[|s| - 1];
      assert s == init + [last];
      assert forall i :: 0 <= i < |init| ==> init[i] == s[i];
      SlugIsRead(init);
      ReadLast(NOTHING, init, last);
      if init != "" && init[|init| - 1] == '-' {
        assert s[|s| - 2] == '-';
        assert init[..|init| - 1] + "-" == init;
      }
    }
  }

  lemma {:induction false} ReadIsSlug(text: string)
    ensures Slug(Label(text)) && (ReadAll(NOTHING, text).gap ==> Label(text) != "")
  {
    if text != "" {
      var init, last := text[..|text| - 1], text[|text| - 1];
      assert text == init + [last];
      ReadIsSlug(init);
      ReadLast(NOTHING, init, last);
    }
  }

  /** What dnsLabel has before its collapse loop. */
  function Prepared(text: string): string {
    Trim(Foreign(Underscores(ToLower(Trim(text, IsSpace)))), IsDash)
  }

  predicate NoDashEdges(s: string) {
    s != "" ==> s[0] != '-' && s[|s| - 1] != '-'
  }

  lemma TrimSpaceKeepsLabel(text: string)
    ensures Label(Trim(text, IsSpace)) == Label(text)
  {
    assert forall c :: IsSpace(c) ==> !Alnum(Lower(c));
    TrimLeftKeepsLabel(text, IsSpace);
    TrimRightKeepsLabel(TrimLeft(text, IsSpace), IsSpace);
  }

  lemma TrimDashesKeepsLabel(text: string)
    ensures Label(Trim(text, IsDash)) == Label(text)
  {
    TrimLeftKeepsLabel(text, IsDash);
    TrimRightKeepsLabel(TrimLeft(text, IsDash), IsDash);
  }

  lemma PreparedKeepsLabel(text: string)
    ensures Label(Prepared(text)) == Label(text) && LabelAlphabet(Prepared(text)) && NoDashEdges(Prepared(text))
  {
    var trimmed := Trim(text, IsSpace);
    TrimSpaceKeepsLabel(text);
    LowerKeepsLabel(NOTHING, trimmed);
    var low := ToLower(trimmed);
    UnderscoresKeepLabel(NOTHING, low);
    UnderscoresLowered(low);
    ForeignKeepsLabel(NOTHING, Underscores(low));
    ForeignAlphabet(Underscores(low));
    TrimDashesKeepsLabel(Foreign(Underscores(low)));
    TrimDashes(Foreign(Underscores(low)));
  }

  /** dnsLabel. */
  method DnsLabel(text: string) returns (slug: string)
    ensures slug == Label(text)
  {
    var s := ToLower(Trim(text, IsSpace));
    s := Underscores(s);
    s := Foreign(s);
    s := Trim(s, IsDash);
    PreparedKeepsLabel(text);
    while DoubleDash(s)
      invariant Label(s) == Label(text) && LabelAlphabet(s) && NoDashEdges(s)
      decreases |s|
    {
      HalvedKeepsLabel(NOTHING, s);
      HalvedShrinks(s);
      HalvedAlphabet(s);
      s := Halved(s);
    }
    SlugIsRead(s);
    slug := s;
  }

  /** The label is a slug: letters and digits, single dashes, none at the edges. */
  lemma LabelIsSlug(text: string)
    ensures Slug(Label(text))
  {
    ReadIsSlug(text);
  }

  /** Making a label twice changes nothing. */
  lemma LabelIsIdempotent(text: string)
    ensures Label(Label(text)) == Label(text)
  {
    ReadIsSlug(text);
    SlugIsRead(Label(text));
  }

  /** The lower-cased letters and digits, in order. */
  function Letters(text: string): string {
    if text == "" then ""
    else Letters(text[..|text| - 1]) + (if Alnum(Lower(text[|text| - 1])) then [Lower(text[|text| - 1])] else "")
  }

  lemma ReadKeepsLetters(s: Scan, c: char)
    ensures Letters(Read(s, c).slug) == Letters(s.slug) + (if Alnum(Lower(c)) then [Lower(c)] else "")
  {
    if Alnum(Lower(c)) {
      LettersAppend(s.slug, '-');
      LettersAppend(s.slug + (if s.gap then "-" else ""), Lower(c));
      assert s.slug + "" == s.slug;
    }
  }

  /** No letter or digit is lost, added or moved. */
  lemma {:induction false} LabelKeepsLetters(text: string)
    ensures Letters(Label(text)) == Letters(text)
  {
    if text != "" {
      var init, c := text[..|text| - 1], text[|text| - 1];
      assert text == init + [c];
      LabelKeepsLetters(init);
      ReadLast(NOTHING, init, c);
      ReadKeepsLetters(ReadAll(NOTHING, init), c);
    }
  }

  lemma LettersAppend(s: string, c: char)
    ensures Letters(s + [c]) == Letters(s) + (if Alnum(Lower(c)) then [Lower(c)] else "")
  {
    assert (s + [c])[..|s|] == s;
  }

  lemma {:induction false} UnderscoresLowered(s: string)
    requires Lowered(s)
    ensures Lowered(Underscores(s))
  {
    if s != "" { UnderscoresLowered(s[1..]); }
  }

  predicate LabelAlphabet(s: string) {
    forall i :: 0 <= i < |s| ==> Alnum(s[i]) || s[i] == '-'
  }

  lemma {:induction false} ForeignAlphabet(s: string)
    ensures LabelAlphabet(Foreign(s))
  {
    if s != "" { ForeignAlphabet(s[1..]); }
  }

  lemma {:induction false} HalvedAlphabet(s: string)
    requires LabelAlphabet(s)
    ensures LabelAlphabet(Halved(s))
    ensures s != "" ==> Halved(s) != "" && Halved(s)[0] == s[0] && Halved(s)[|Halved(s)| - 1] == s[|s| - 1]
  {
    if |s| >= 2 && s[0] == '-' && s[1] == '-' {
      HalvedAlphabet(s[2..]);
    } else if s != "" {
      HalvedAlphabet(s[1..]);
    }
  }

  lemma {:induction false} TrimDashes(s: string)
    requires LabelAlphabet(s)
    ensures LabelAlphabet(Trim(s, IsDash))
    ensures Trim(s, IsDash) != "" ==> Trim(s, IsDash)[0] != '-' && Trim(s, IsDash)[|Trim(s, IsDash)| - 1] != '-'
  {
    if s != "" && s[0] == '-' {
      TrimDashes(s[1..]);
    } else {
      TrimRightDashes(s);
    }
  }

  lemma {:induction false} TrimRightDashes(s: string)
    requires LabelAlphabet(s)
    ensures var t := TrimRight(s, IsDash);
            LabelAlphabet(t) && |t| <= |s| && t == s[..|t|] && (t != "" ==> t[|t| - 1] != '-')
            && (s != "" && s[0] != '-' ==> t != "")
  {
    if s != "" && s[|s| - 1] == '-' {
      TrimRightDashes(s[..|s| - 1]);
    }
  }

  // -------------------------------------------------------------- lease names

  datatype PRRef = PRRef(owner: string, repo: string, number: int, sha: string, branch: string, sender: string)

  const INT64_LIMIT := 0x8000_0000_0000_0000

  const MAX_LABEL := 63

  function FullName(r: PRRef): string {
    r.owner + "/" + r.repo
  }

  function Digit(d: nat): char
    requires d < 10
  {
    '0' + d as char
  }

  /** strconv.Itoa */
  function Itoa(n: nat): string {
    if n < 10 then [Digit(n)] else Itoa(n / 10) + [Digit(n % 10)]
  }

  function Suffix(n: nat): string {
    "-pr-" + Itoa(n)
  }

  /** The names are ASCII, where unicode.IsLower and IsDigit are a-z and 0-9. */
  predicate IsDNS1123Label(s: string) {
    0 < |s| <= MAX_LABEL && s[0] != '-' && s[|s| - 1] != '-' && LabelAlphabet(s)
  }

  function TrimTo63(s: string): string {
    if |s| <= MAX_LABEL then s else Trim(s[..MAX_LABEL], IsDash)
  }

  /** Room for the repository before "-<hash><suffix>". */
  function MaxRepo(suffix: string, h: string): int {
    MAX_LABEL - |suffix| - 1 - |h|
  }

  /** `hash` stands for the first eight hexadecimal digits of SHA-1. */
  function LeaseName(hash: string -> string, r: PRRef): string
    requires r.number >= 0
  {
    var repo := if Label(r.repo) == "" then "repo" else Label(r.repo);
    var suffix := Suffix(r.number);
    var base := repo + suffix;
    if |base| <= MAX_LABEL && IsDNS1123Label(base) then base
    else LongName(hash(FullName(r) + "#" + Itoa(r.number)), repo, suffix)
  }

  function LongName(h: string, repo: string, suffix: string): string {
    var max := MaxRepo(suffix, h);
    if max < 1 then TrimTo63(h + suffix)
    else
      var cut := if |repo| > max then Trim(repo[..max], IsDash) else repo;
      TrimTo63((if cut == "" then "r" else cut) + "-" + h + suffix)
  }

  ghost predicate HexHash(hash: string -> string) {
    forall s :: |hash(s)| == 8 && IsHex(hash(s))
  }

  predicate IsHex(s: string) {
    forall i :: 0 <= i < |s| ==> Alnum(s[i])
  }

  function Pow10(k: nat): nat {
    if k == 0 then 1 else 10 * Pow10(k - 1)
  }

  lemma {:induction false} ItoaIsShort(n: nat, k: nat)
    requires k > 0 && n < Pow10(k)
    ensures 0 < |Itoa(n)| <= k && IsHex(Itoa(n))
  {
    if n >= 10 {
      assert k > 1;
      ItoaIsShort(n / 10, k - 1);
    }
  }

  lemma SuffixIsShort(n: nat)
    requires n < INT64_LIMIT
    ensures 5 <= |Suffix(n)| <= 23 && LabelAlphabet(Suffix(n)) && Suffix(n)[|Suffix(n)| - 1] != '-'
  {
    assert Pow10(19) == 10_000_000_000_000_000_000 by { Pow10OfNineteen(); }
    ItoaIsShort(n, 19);
  }

  lemma Pow10OfNineteen()
    ensures Pow10(19) == 10_000_000_000_000_000_000
  {
    assert Pow10(5) == 100_000;
    assert Pow10(10) == 10_000_000_000;
    assert Pow10(15) == 1_000_000_000_000_000;
  }

  /** A good name for pull request n: a DNS label that ends in "-pr-n". */
  ghost predicate GoodName(name: string, n: nat) {
    && IsDNS1123Label(name) && |Suffix(n)| < |name| && name[|name| - |Suffix(n)|..] == Suffix(n)
  }

  lemma Joined(p: string, suffix: string, n: nat)
    requires p != "" && p[0] != '-' && LabelAlphabet(p) && n < INT64_LIMIT && suffix == Suffix(n)
    requires |p| + |suffix| <= MAX_LABEL
    ensures GoodName(p + suffix, n)
  {
    SuffixIsShort(n);
    assert (p + suffix)[|p|..] == suffix;
  }

  lemma LongNameIsGood(h: string, repo: string, n: nat)
    requires |h| == 8 && IsHex(h) && n < INT64_LIMIT && repo != "" && repo[0] != '-' && LabelAlphabet(repo)
    ensures MaxRepo(Suffix(n), h) >= 31 && GoodName(LongName(h, repo, Suffix(n)), n)
  {
    SuffixIsShort(n);
    var max := MaxRepo(Suffix(n), h);
    var cut := if |repo| > max then Trim(repo[..max], IsDash) else repo;
    if |repo| > max {
      TrimRightDashes(repo[..max]);
      assert cut != "" && cut == repo[..|cut|];
    }
    assert cut + "-" + h + Suffix(n) == (cut + "-" + h) + Suffix(n);
    Joined(cut + "-" + h, Suffix(n), n);
  }

  /** For every repository string and every pull request number of a 64-bit int,
      the lease name is a DNS label of at most 63 characters that ends in "-pr-N";
      there is always room for 31 characters of the repository, so the branch
      without it is never taken. */
  lemma LeaseNameIsGood(hash: string -> string, r: PRRef)
    requires 0 < r.number < INT64_LIMIT && HexHash(hash)
    ensures GoodName(LeaseName(hash, r), r.number)
    ensures MaxRepo(Suffix(r.number), hash(FullName(r) + "#" + Itoa(r.number))) >= 31
  {
    var repo := if Label(r.repo) == "" then "repo" else Label(r.repo);
    LabelIsSlug(r.repo);
    var h := hash(FullName(r) + "#" + Itoa(r.number));
    assert |h| == 8 && IsHex(h);
    LongNameIsGood(h, repo, r.number);
    if |repo + Suffix(r.number)| <= MAX_LABEL {
      Joined(repo, Suffix(r.number), r.number);
    }
  }

  function Value(s: string): nat
    requires forall i :: 0 <= i < |s| ==> '0' <= s[i] <= '9'
  {
    if s == "" then 0 else 10 * Value(s[..|s| - 1]) + (s[|s| - 1] - '0') as int
  }

  /** Itoa can be read back. */
  lemma {:induction false} ItoaValue(n: nat)
    ensures forall i :: 0 <= i < |Itoa(n)| ==> '0' <= Itoa(n)[i] <= '9'
    ensures Value(Itoa(n)) == n
  {
    if n >= 10 {
      ItoaValue(n / 10);
      assert Itoa(n)[..|Itoa(n)| - 1] == Itoa(n / 10);
    } else {
      assert Value([Digit(n)][..0]) == 0;
    }
  }

  /** The digits are what follows the last dash. */
  lemma GoodNameTail(name: string, n: nat)
    requires GoodName(name, n)
    ensures var k := |name| - |Itoa(n)|;
            && 0 < k && name[k..] == Itoa(n) && name[k - 1] == '-'
            && forall j :: k <= j < |name| ==> name[j] != '-'
  {
    ItoaValue(n);
    var k := |name| - |Itoa(n)|;
    var tail := name[|name| - |Suffix(n)|..];
    assert tail == Suffix(n) && Suffix(n)[3] == '-';
    assert name[k - 1] == tail[3];
    forall j | k <= j < |name| ensures name[j] == Itoa(n)[j - k] {
      assert name[j] == tail[j - (|name| - |Suffix(n)|)];
    }
  }

  lemma SuffixesDiffer(name: string, n: nat, m: nat)
    requires GoodName(name, n) && GoodName(name, m) && |Itoa(n)| <= |Itoa(m)|
    ensures n == m
  {
    GoodNameTail(name, n);
    GoodNameTail(name, m);
    assert |Itoa(n)| == |Itoa(m)|;
    ItoaValue(n);
    ItoaValue(m);
  }

  /** One name belongs to one pull request number. */
  lemma NameGivesNumber(name: string, n: nat, m: nat)
    requires GoodName(name, n) && GoodName(name, m)
    ensures n == m
  {
    if |Itoa(n)| <= |Itoa(m)| { SuffixesDiffer(name, n, m); } else { SuffixesDiffer(name, m, n); }
  }

  /** Equal lease names imply equal pull request numbers, whatever the repositories. */
  lemma EqualNamesEqualNumbers(hash: string -> string, a: PRRef, b: PRRef)
    requires HexHash(hash) && 0 < a.number < INT64_LIMIT && 0 < b.number < INT64_LIMIT
    requires LeaseName(hash, a) == LeaseName(hash, b)
    ensures a.number == b.number
  {
    LeaseNameIsGood(hash, a);
    LeaseNameIsGood(hash, b);
    NameGivesNumber(LeaseName(hash, a), a.number, b.number);
  }

  /** They do not imply equal repositories. */
  lemma NamesCollide(hash: string -> string, owner: string, n: int)
    requires 0 < n < INT64_LIMIT
    ensures var a, b := PRRef(owner, "a_b", n, "", "", ""), PRRef(owner, "a-b", n, "", "", "");
            FullName(a) != FullName(b) && LeaseName(hash, a) == LeaseName(hash, b)
  {
    SuffixIsShort(n);
    ReadWithGap('_');
    ReadWithGap('-');
    Joined("a-b", Suffix(n), n);
    var a, b := FullName(PRRef(owner, "a_b", n, "", "", "")), FullName(PRRef(owner, "a-b", n, "", "", ""));
    assert a[|owner| + 2] != b[|owner| + 2];
  }

  lemma ReadWithGap(c: char)
    requires !Alnum(Lower(c))
    ensures Label(['a', c, 'b']) == "a-b"
  {
    ReadThree('a', c, 'b');
  }

  lemma ReadThree(x: char, y: char, z: char)
    ensures Label([x, y, z]) == Read(Read(Read(NOTHING, x), y), z).slug
  {
    assert [x, y, z][1..] == [y, z] && [y, z][1..] == [z] && [z][1..] == [];
    var s := Read(NOTHING, x);
    assert ReadAll(NOTHING, [x, y, z]) == ReadAll(s, [y, z]);
    assert ReadAll(s, [y, z]) == ReadAll(Read(s, y), [z]);
    assert ReadAll(Read(s, y), [z]) == ReadAll(Read(Read(s, y), z), []);
  }
}
