/**
 * Recovering artifacts from generated text: `clean_json_text` (fence
 * markers off before decoding), `detect_language` and `extract_code_content`.
 * The regular expressions of the source are modelled pattern by pattern as
 * predicates on a position of the text.
 */
module Extraction {
  import opened Wrappers
  import opened PyText

  /** The two target languages. */
  datatype Lang = Python | Cpp

  /** `detect_language`: Python when the text has a ```python fence or a `def `. */
  function DetectLanguage(text: string): (lang: Lang)
    ensures lang == Python <==>
      exists i :: 0 <= i <= |text| && (OccursAt(text, i, "```python") || OccursAt(text, i, "def "))
  {
    if Contains(text, "```python") || Contains(text, "def ") then Python else Cpp
  }

  // ---------------------------------------------------------------------------
  // clean_json_text

  /** Characters that `re.IGNORECASE` lets stand for the pattern character `p` of "```json". */
  predicate FoldMatch(c: char, p: char) {
    if p == 'j' then c == 'j' || c == 'J'
    else if p == 's' then c == 's' || c == 'S' || c == '\U{17f}'
    else if p == 'o' then c == 'o' || c == 'O'
    else if p == 'n' then c == 'n' || c == 'N'
    else c == p
  }

  predicate FoldOccursAt(s: string, i: nat, pat: string) {
    i + |pat| <= |s| && forall k :: 0 <= k < |pat| ==> FoldMatch(s[i + k], pat[k])
  }

  /** `re.sub(pat, "", s, flags=re.IGNORECASE)` for a literal pattern. */
  function RemoveAllFold(s: string, pat: string): string
    requires pat != []
    decreases |s|
  {
    if s == [] then []
    else if FoldOccursAt(s, 0, pat) then RemoveAllFold(s[|pat|..], pat)
    else [s[0]] + RemoveAllFold(s[1..], pat)
  }

  /** Text before the first backtick is copied as it is by the case-insensitive removal. */
  lemma {:induction false} RemoveAllFoldKeepsPrefix(a: string, b: string, pat: string)
    requires pat != [] && pat[0] == '`' && '`' !in a
    ensures RemoveAllFold(a + b, pat) == a + RemoveAllFold(b, pat)
    decreases |a|
  {
    if a == [] {
      assert a + b == b;
    } else {
      assert (a + b)[0] == a[0] && (a + b)[1..] == a[1..] + b;
      assert !FoldOccursAt(a + b, 0, pat);
      RemoveAllFoldKeepsPrefix(a[1..], b, pat);
    }
  }

  /** A text without backticks has no fence marker to remove. */
  lemma NoTicksUnchanged(text: string)
    ensures '`' !in text ==> RemoveAllFold(text, "```json") == text && Unfence(text) == text
  {
    if '`' !in text {
      RemoveAllFoldKeepsPrefix(text, [], "```json");
      ReplaceAbsent(text, "```", "");
      assert text + [] == text;
    }
  }

  /**
   * `clean_json_text`: "{}" for an empty reply, else the reply without fence
   * markers, stripped; a reply without backticks is only stripped.
   */
  function CleanJsonText(text: string): (r: string)
    ensures text == [] ==> r == "{}"
    ensures text != [] && '`' !in text ==> r == Strip(text)
    ensures r == [] || (!IsSpace(r[0]) && !IsSpace(r[|r| - 1]))
  {
    if text == [] then "{}"
    else
      NoTicksUnchanged(text);
      Strip(Unfence(RemoveAllFold(text, "```json")))
  }

  /** A payload fenced as ```json ... ``` (the tag in any case) is handed over as the payload, stripped. */
  lemma CleanJsonTextFenced(tag: string, body: string)
    requires |tag| == 7 && FoldOccursAt(tag, 0, "```json")
    requires '`' !in body
    ensures CleanJsonText(tag + body + "```") == Strip(body)
  {
    var text := tag + body + "```";
    assert text[7..] == body + "```";
    assert FoldOccursAt(text, 0, "```json") by {
      forall k | 0 <= k < 7 ensures FoldMatch(text[k], "```json"[k]) {
        assert text[k] == tag[k];
      }
    }
    assert RemoveAllFold(text, "```json") == RemoveAllFold(body + "```", "```json");
    RemoveAllFoldKeepsPrefix(body, "```", "```json");
    assert RemoveAllFold("```", "```json") == "```";
    ReplaceKeepsPrefix(body, "```", "```", "");
    assert Unfence("```") == "";
    assert body + "" == body;
  }

  /** `s.replace("```", "")`. */
  function Unfence(s: string): string {
    ReplaceAll(s, "```", "")
  }

  /** Three backticks at `i`. */
  predicate FenceAt(s: string, i: nat) {
    i + 3 <= |s| && s[i] == '`' && s[i + 1] == '`' && s[i + 2] == '`'
  }

  lemma FenceAtIsOccurrence(s: string, i: nat)
    ensures FenceAt(s, i) <==> OccursAt(s, i, "```")
  {
    if FenceAt(s, i) {
      assert s[i..i + 3] == "```";
    }
  }

  /** What is handed to the decoder never contains a fence marker. */
  lemma CleanJsonTextUnfenced(text: string)
    ensures forall i :: 0 <= i <= |CleanJsonText(text)| ==> !OccursAt(CleanJsonText(text), i, "```")
  {
    var r := CleanJsonText(text);
    if text != [] {
      var unfenced := Unfence(RemoveAllFold(text, "```json"));
      UnfenceLeavesNone(RemoveAllFold(text, "```json"));
      var a, b := StripIsSlice(unfenced);
      forall i | 0 <= i <= |r| ensures !OccursAt(r, i, "```") {
        FenceAtIsOccurrence(r, i);
        assert !FenceAt(unfenced, a + i);
      }
    } else {
      forall i | 0 <= i <= |r| ensures !OccursAt(r, i, "```") {
        FenceAtIsOccurrence(r, i);
      }
    }
  }

  /** The number of backticks a text starts with. */
  function LeadingTicks(s: string): (n: nat)
    ensures n <= |s|
    ensures forall k :: 0 <= k < n ==> s[k] == '`'
    ensures n < |s| ==> s[n] != '`'
    decreases |s|
  {
    if s != [] && s[0] == '`' then 1 + LeadingTicks(s[1..]) else 0
  }

  lemma UnfenceStep(s: string)
    requires s != []
    ensures FenceAt(s, 0) ==> Unfence(s) == Unfence(s[3..])
    ensures !FenceAt(s, 0) ==> Unfence(s) == [s[0]] + Unfence(s[1..])
  {
    FenceAtIsOccurrence(s, 0);
  }

  lemma ModThree(n: nat)
    ensures (3 + n) % 3 == n % 3
    ensures n < 3 ==> n % 3 == n
  {
  }

  /** A run of k leading backticks shrinks to k mod 3. */
  lemma {:induction false} UnfenceLeadingTicks(s: string)
    ensures LeadingTicks(Unfence(s)) == LeadingTicks(s) % 3
    decreases |s|
  {
    if s != [] {
      UnfenceStep(s);
      if FenceAt(s, 0) {
        UnfenceLeadingTicks(s[3..]);
        var n := LeadingTicks(s[3..]);
        assert LeadingTicks(s) == 3 + n by {
          assert s[1..][1..] == s[2..] && s[2..][1..] == s[3..];
          assert LeadingTicks(s[2..]) == 1 + n;
          assert LeadingTicks(s[1..]) == 2 + n;
        }
        ModThree(n);
      } else if s[0] == '`' {
        UnfenceLeadingTicks(s[1..]);
        var tail := Unfence(s[1..]);
        var m := LeadingTicks(s[1..]);
        assert m < 2 by {
          if m >= 2 {
            assert FenceAt(s, 0);
          }
        }
        ModThree(m);
        ModThree(1 + m);
        assert Unfence(s) == [s[0]] + tail;
        assert ([s[0]] + tail)[1..] == tail;
        assert LeadingTicks(Unfence(s)) == 1 + m;
      } else {
        assert Unfence(s) == [s[0]] + Unfence(s[1..]);
      }
    }
  }

  /**
   * Removing every "```" left to right leaves none: runs of backticks
   * shrink below three and never merge.
   */
  lemma {:induction false} UnfenceLeavesNone(s: string)
    ensures forall i :: 0 <= i <= |Unfence(s)| ==> !FenceAt(Unfence(s), i)
    decreases |s|
  {
    if s != [] {
      UnfenceStep(s);
      if FenceAt(s, 0) {
        UnfenceLeavesNone(s[3..]);
      } else {
        UnfenceLeavesNone(s[1..]);
        UnfenceLeadingTicks(s[1..]);
        var r := Unfence(s);
        var tail := Unfence(s[1..]);
        assert r == [s[0]] + tail;
        forall i | 0 <= i <= |r| ensures !FenceAt(r, i) {
          if i > 0 {
            assert !FenceAt(tail, i - 1);
          }
        }
      }
    }
  }

  // ---------------------------------------------------------------------------
  // Fenced blocks: re.findall(r"```(?:\w+)?\n([\s\S]*?)(?:```|$)", text)

  /** `\w`, restricted to ASCII. */
  predicate IsWordChar(c: char) {
    ('a' <= c <= 'z') || ('A' <= c <= 'Z') || ('0' <= c <= '9') || c == '_'
  }

  /** The end of the run of word characters starting at `i`. */
  function SkipWord(s: string, i: nat): (j: nat)
    requires i <= |s|
    ensures i <= j <= |s|
    ensures forall k :: i <= k < j ==> IsWordChar(s[k])
    ensures j == |s| || !IsWordChar(s[j])
    decreases |s| - i
  {
    if i < |s| && IsWordChar(s[i]) then SkipWord(s, i + 1) else i
  }

  /** The end of the run of whitespace starting at `i`. */
  function SkipSpace(s: string, i: nat): (j: nat)
    requires i <= |s|
    ensures i <= j <= |s|
    decreases |s| - i
  {
    if i < |s| && IsSpace(s[i]) then SkipSpace(s, i + 1) else i
  }

  /** What `SkipSpace` skips is whitespace, and it stops at the first character that is not. */
  lemma {:induction false} SkipSpaceSpec(s: string, i: nat)
    requires i <= |s|
    ensures forall k :: i <= k < SkipSpace(s, i) ==> IsSpace(s[k])
    ensures SkipSpace(s, i) == |s| || !IsSpace(s[SkipSpace(s, i)])
    decreases |s| - i
  {
    if i < |s| && IsSpace(s[i]) {
      SkipSpaceSpec(s, i + 1);
    }
  }

  /**
   * Where the body of a block opened at `p` starts: three backticks, an
   * optional word (the language tag), then a newline.
   */
  function FenceBodyStart(s: string, p: nat): (b: Option<nat>)
    ensures b.Some? ==> OccursAt(s, p, "```") && p + 4 <= b.value <= |s| && s[b.value - 1] == '\n'
    ensures b.Some? ==> forall k :: p + 3 <= k < b.value - 1 ==> IsWordChar(s[k])
  {
    if OccursAt(s, p, "```") then
      var q := SkipWord(s, p + 3);
      if q < |s| && s[q] == '\n' then Some(q + 1) else None
    else None
  }

  /** Three backticks at `p`, word characters, then a newline at `q`: the body starts after `q`. */
  lemma FenceBodyStartAt(s: string, p: nat, q: nat)
    requires OccursAt(s, p, "```") && p + 3 <= q < |s| && s[q] == '\n'
    requires forall k :: p + 3 <= k < q ==> IsWordChar(s[k])
    ensures FenceBodyStart(s, p) == Some(q + 1)
  {
    assert !IsWordChar(s[q]);
  }

  /** `(?:```|$)` matches at `e`: a fence, the end, or just before a final newline. */
  predicate BodyStop(s: string, e: nat) {
    OccursAt(s, e, "```") || e == |s| || (e + 1 == |s| && s[e] == '\n')
  }

  /** The lazy body `[\s\S]*?` stops at the first place where the closing alternative matches. */
  function BodyEnd(s: string, e: nat): (r: nat)
    requires e <= |s|
    ensures e <= r <= |s| && BodyStop(s, r)
    ensures forall k :: e <= k < r ==> !BodyStop(s, k)
    decreases |s| - e
  {
    if BodyStop(s, e) then e else BodyEnd(s, e + 1)
  }

  /** `re.findall` of the fenced-block pattern from position `pos` on: the captured bodies, in order. */
  function FencedBlocksFrom(s: string, pos: nat): seq<string>
    requires pos <= |s|
    decreases |s| - pos
  {
    if pos == |s| then []
    else
      match FenceBodyStart(s, pos)
      case None => FencedBlocksFrom(s, pos + 1)
      case Some(b) =>
        var e := BodyEnd(s, b);
        var next := if OccursAt(s, e, "```") then e + 3 else e;
        [s[b..e]] + FencedBlocksFrom(s, next)
  }

  function FencedBlocks(text: string): seq<string> {
    FencedBlocksFrom(text, 0)
  }

  /** `[f(m) for m in xs]`. */
  function Map(f: string -> string, xs: seq<string>): (r: seq<string>)
    ensures |r| == |xs|
  {
    seq(|xs|, k requires 0 <= k < |xs| => f(xs[k]))
  }

  /** The texts longer than 20 characters, in order. */
  function Longer(xs: seq<string>): (r: seq<string>)
    ensures |r| <= |xs|
    ensures forall k :: 0 <= k < |r| ==> |r[k]| > 20
    decreases |xs|
  {
    if xs == [] then []
    else (if |xs[0]| > 20 then [xs[0]] else []) + Longer(xs[1..])
  }

  /** `[m.strip() for m in matches if len(m.strip()) > 20]`. */
  function UsableBlocks(blocks: seq<string>): (valid: seq<string>)
    ensures |valid| <= |blocks|
    ensures forall k :: 0 <= k < |valid| ==> |valid[k]| > 20
  {
    Longer(Map(Strip, blocks))
  }

  lemma {:induction false} LongerMembers(xs: seq<string>, x: string)
    ensures x in Longer(xs) <==> x in xs && |x| > 20
    decreases |xs|
  {
    if xs != [] {
      LongerMembers(xs[1..], x);
      assert xs == [xs[0]] + xs[1..];
    }
  }

  lemma {:induction false} LongerAppend(a: seq<string>, b: seq<string>)
    ensures Longer(a + b) == Longer(a) + Longer(b)
    decreases |a|
  {
    if a == [] {
      assert a + b == b;
    } else {
      assert (a + b)[0] == a[0] && (a + b)[1..] == a[1..] + b;
      LongerAppend(a[1..], b);
      var h: seq<string> := if |a[0]| > 20 then [a[0]] else [];
      assert h + (Longer(a[1..]) + Longer(b)) == (h + Longer(a[1..])) + Longer(b);
    }
  }

  /** A block is kept, stripped, exactly when its stripped text is longer than 20 characters. */
  lemma UsableBlocksMembers(blocks: seq<string>, x: string)
    ensures x in UsableBlocks(blocks) <==> exists k :: 0 <= k < |blocks| && Strip(blocks[k]) == x && |x| > 20
  {
    var st := Map(Strip, blocks);
    LongerMembers(st, x);
    if x in st {
      var k :| 0 <= k < |st| && st[k] == x;
      assert Strip(blocks[k]) == x;
    }
    if exists k :: 0 <= k < |blocks| && Strip(blocks[k]) == x {
      var k :| 0 <= k < |blocks| && Strip(blocks[k]) == x;
      assert st[k] == x;
    }
  }

  /** Blocks are kept in the order they were found. */
  lemma UsableBlocksAppend(a: seq<string>, b: seq<string>)
    ensures UsableBlocks(a + b) == UsableBlocks(a) + UsableBlocks(b)
  {
    MapAppend(Strip, a, b);
    LongerAppend(Map(Strip, a), Map(Strip, b));
  }

  lemma MapAppend(f: string -> string, a: seq<string>, b: seq<string>)
    ensures Map(f, a + b) == Map(f, a) + Map(f, b)
  {
    forall k | 0 <= k < |a| + |b| ensures Map(f, a + b)[k] == (Map(f, a) + Map(f, b))[k] {
      if k < |a| {
        assert (a + b)[k] == a[k];
      } else {
        assert (a + b)[k] == b[k - |a|];
      }
    }
  }

  // ---------------------------------------------------------------------------
  // The token patterns searched for

  /**
   * One piece of the regular expressions `extract_code_content` searches
   * with: literal text, `\s+` or `\s*`. Every literal that follows a gap
   * starts with a character that is not whitespace, so taking the whole run
   * of whitespace, as below, is what the backtracking matcher ends up doing.
   */
  datatype Piece = Word(w: string) | Gap | OptGap

  /** A regular expression: alternatives, each a sequence of pieces. */
  type Pattern = seq<seq<Piece>>

  /** `int\s+main` */
  const IntMain: Pattern := [[Word("int"), Gap, Word("main")]]

  /** `if\s+__name__` */
  const NameGuard: Pattern := [[Word("if"), Gap, Word("__name__")]]

  /** `(#include\s*<|int\s+main\s*\()` */
  const CppEntry: Pattern :=
    [[Word("#include"), OptGap, Word("<")],
     [Word("int"), Gap, Word("main"), OptGap, Word("(")]]

  /** `(def\s+solution|if\s+__name__\s*==|import\s+sys)` */
  const PyEntry: Pattern :=
    [[Word("def"), Gap, Word("solution")],
     [Word("if"), Gap, Word("__name__"), OptGap, Word("==")],
     [Word("import"), Gap, Word("sys")]]

  /** Where `pieces`, matched one after another from `i`, end. */
  function PiecesEnd(pieces: seq<Piece>, s: string, i: nat): (e: Option<nat>)
    requires i <= |s|
    ensures e.Some? ==> i <= e.value <= |s|
    decreases |pieces|
  {
    if pieces == [] then Some(i)
    else
      match pieces[0]
      case Word(w) => if OccursAt(s, i, w) then PiecesEnd(pieces[1..], s, i + |w|) else None
      case Gap => var j := SkipSpace(s, i); if j > i then PiecesEnd(pieces[1..], s, j) else None
      case OptGap => PiecesEnd(pieces[1..], s, SkipSpace(s, i))
  }

  /** Some alternative of `p` matches at `i`. */
  predicate MatchesAt(p: Pattern, s: string, i: nat)
    decreases |p|
  {
    p != [] && i <= |s| && (PiecesEnd(p[0], s, i).Some? || MatchesAt(p[1..], s, i))
  }

  /** `re.search(p, s)` from position `i`: the leftmost position where `p` matches. */
  function SearchFrom(p: Pattern, s: string, i: nat): (r: Option<nat>)
    requires i <= |s|
    ensures r.Some? ==> i <= r.value <= |s|
    decreases |s| - i
  {
    if MatchesAt(p, s, i) then Some(i)
    else if i == |s| then None
    else SearchFrom(p, s, i + 1)
  }

  /** The position found is a match, and no earlier position is. */
  lemma {:induction false} SearchFromFound(p: Pattern, s: string, i: nat)
    requires i <= |s| && SearchFrom(p, s, i).Some?
    ensures MatchesAt(p, s, SearchFrom(p, s, i).value)
    ensures forall k :: i <= k < SearchFrom(p, s, i).value ==> !MatchesAt(p, s, k)
    decreases |s| - i
  {
    var here := MatchesAt(p, s, i);
    if !here {
      SearchFromFound(p, s, i + 1);
      assert SearchFrom(p, s, i) == SearchFrom(p, s, i + 1);
    }
  }

  /** Without a position found, `p` matches nowhere from `i` on. */
  lemma {:induction false} SearchFromNone(p: Pattern, s: string, i: nat)
    requires i <= |s| && SearchFrom(p, s, i).None?
    ensures forall k :: i <= k <= |s| ==> !MatchesAt(p, s, k)
    decreases |s| - i
  {
    var here := MatchesAt(p, s, i);
    if i < |s| {
      SearchFromNone(p, s, i + 1);
    }
  }

  function Search(p: Pattern, s: string): Option<nat> {
    SearchFrom(p, s, 0)
  }

  predicate Found(p: Pattern, s: string) {
    Search(p, s).Some?
  }

  /** The index of the first block in which `p` is found. */
  function FirstFound(blocks: seq<string>, p: Pattern): (r: Option<nat>)
    ensures r.Some? ==> r.value < |blocks|
    decreases |blocks|
  {
    if blocks == [] then None
    else if Found(p, blocks[0]) then Some(0)
    else
      match FirstFound(blocks[1..], p)
      case None => None
      case Some(k) => Some(k + 1)
  }

  /** The block named is one `p` is found in and no earlier one is; without a name, `p` is in no block. */
  lemma {:induction false} FirstFoundSpec(blocks: seq<string>, p: Pattern)
    ensures FirstFound(blocks, p).Some? ==> Found(p, blocks[FirstFound(blocks, p).value])
    ensures FirstFound(blocks, p).Some? ==> forall k :: 0 <= k < FirstFound(blocks, p).value ==> !Found(p, blocks[k])
    ensures FirstFound(blocks, p).None? ==> forall k :: 0 <= k < |blocks| ==> !Found(p, blocks[k])
    decreases |blocks|
  {
    if blocks != [] && !Found(p, blocks[0]) {
      FirstFoundSpec(blocks[1..], p);
      assert forall k :: 1 <= k < |blocks| ==> blocks[k] == blocks[1..][k - 1];
    }
  }

  // ---------------------------------------------------------------------------
  // extract_code_content

  /** The text from the first match of `p` to the end, stripped. */
  function FromFirst(p: Pattern, text: string): Option<string> {
    match Search(p, text)
    case Some(i) => Some(Strip(text[i..]))
    case None => None
  }

  /** The block `extract_code_content` picks among the usable ones. */
  function PickBlock(valid: seq<string>): string
    requires valid != []
  {
    match FirstFound(valid, IntMain)
    case Some(k) => valid[k]
    case None =>
      match FirstFound(valid, NameGuard)
      case Some(k) => valid[k]
      case None => valid[|valid| - 1]
  }

  /** The cut `extract_code_content` makes when no block is usable. */
  function CutAtMarker(text: string): string {
    match FromFirst(CppEntry, text)
    case Some(code) => code
    case None =>
      match FromFirst(PyEntry, text)
      case Some(code) => code
      case None => ""
  }

  /** What `extract_code_content` returns for `text`. */
  function ExtractCode(text: string): string {
    var valid := UsableBlocks(FencedBlocks(text));
    if valid != [] then PickBlock(valid) else CutAtMarker(text)
  }

  /**
   * `extract_code_content`: prefer the first usable block with a C++ entry
   * point, then the first with a Python main guard, then the last block;
   * without usable blocks, cut the text at the first C++ or Python marker.
   */
  method ExtractCodeContent(text: string) returns (code: string)
    ensures code == ExtractCode(text)
  {
    var valid := UsableBlocks(FencedBlocks(text));
    if valid != [] {
      var withMain := FirstBlockWith(valid, IntMain);
      if withMain.Some? {
        return valid[withMain.value];
      }
      var withGuard := FirstBlockWith(valid, NameGuard);
      if withGuard.Some? {
        return valid[withGuard.value];
      }
      return valid[|valid| - 1];
    }
    var cpp := Search(CppEntry, text);
    if cpp.Some? {
      return Strip(text[cpp.value..]);
    }
    var py := Search(PyEntry, text);
    if py.Some? {
      return Strip(text[py.value..]);
    }
    return "";
  }

  /** `for m in valid: if re.search(p, m): ...`: the index of the first block `p` is found in. */
  method FirstBlockWith(valid: seq<string>, p: Pattern) returns (r: Option<nat>)
    ensures r == FirstFound(valid, p)
  {
    var k := 0;
    while k < |valid|
      invariant 0 <= k <= |valid|
      invariant forall j :: 0 <= j < k ==> !Found(p, valid[j])
    {
      if Found(p, valid[k]) {
        FirstFoundAt(valid, p, k);
        return Some(k);
      }
      k := k + 1;
    }
    FirstFoundNone(valid, p);
    return None;
  }

  /** A block that is the first one `p` is found in is what `FirstFound` names. */
  lemma FirstFoundAt(blocks: seq<string>, p: Pattern, k: nat)
    requires k < |blocks| && Found(p, blocks[k])
    requires forall j :: 0 <= j < k ==> !Found(p, blocks[j])
    ensures FirstFound(blocks, p) == Some(k)
  {
    FirstFoundSpec(blocks, p);
  }

  lemma FirstFoundNone(blocks: seq<string>, p: Pattern)
    requires forall j :: 0 <= j < |blocks| ==> !Found(p, blocks[j])
    ensures FirstFound(blocks, p) == None
  {
    FirstFoundSpec(blocks, p);
  }

  /**
   * With usable blocks, the result is one of them (so longer than 20
   * characters), chosen by the order of preference.
   */
  lemma ExtractCodeFromBlocks(text: string)
    requires UsableBlocks(FencedBlocks(text)) != []
    ensures ExtractCode(text) in UsableBlocks(FencedBlocks(text))
    ensures |ExtractCode(text)| > 20
  {
    PickBlockChoice(UsableBlocks(FencedBlocks(text)));
  }

  /**
   * The order of preference among usable blocks: a block with a C++ entry
   * point if there is one, else one with a Python main guard, else the last.
   */
  lemma PickBlockChoice(valid: seq<string>)
    requires valid != []
    ensures PickBlock(valid) in valid
    ensures (exists k :: 0 <= k < |valid| && Found(IntMain, valid[k])) ==> Found(IntMain, PickBlock(valid))
    ensures (forall k :: 0 <= k < |valid| ==> !Found(IntMain, valid[k])) &&
            (exists k :: 0 <= k < |valid| && Found(NameGuard, valid[k])) ==>
              Found(NameGuard, PickBlock(valid))
    ensures (forall k :: 0 <= k < |valid| ==> !Found(IntMain, valid[k]) && !Found(NameGuard, valid[k])) ==>
              PickBlock(valid) == valid[|valid| - 1]
    ensures forall k :: 0 <= k < |valid| && Found(IntMain, valid[k]) && (forall j :: 0 <= j < k ==> !Found(IntMain, valid[j])) ==>
              PickBlock(valid) == valid[k]
    ensures forall k :: 0 <= k < |valid| && Found(NameGuard, valid[k]) && (forall j :: 0 <= j < k ==> !Found(NameGuard, valid[j])) &&
                        (forall j :: 0 <= j < |valid| ==> !Found(IntMain, valid[j])) ==>
              PickBlock(valid) == valid[k]
  {
    FirstFoundSpec(valid, IntMain);
    FirstFoundSpec(valid, NameGuard);
  }

  /** With exactly one usable block, that block is the result, whatever it contains. */
  lemma PickBlockSingle(block: string)
    ensures PickBlock([block]) == block
  {
  }

  /** `Search` finds exactly the leftmost match. */
  lemma SearchIsLeftmost(p: Pattern, s: string, i: nat)
    requires i <= |s| && MatchesAt(p, s, i)
    requires forall k :: 0 <= k < i ==> !MatchesAt(p, s, k)
    ensures Search(p, s) == Some(i)
  {
    if Search(p, s).None? {
      SearchFromNone(p, s, 0);
      assert false;
    } else {
      SearchFromFound(p, s, 0);
    }
  }

  /** `Search` finds nothing exactly when there is no match. */
  lemma SearchFindsNothing(p: Pattern, s: string)
    ensures Search(p, s).None? ==> forall k :: 0 <= k <= |s| ==> !MatchesAt(p, s, k)
    ensures (forall k :: 0 <= k <= |s| ==> !MatchesAt(p, s, k)) ==> Search(p, s).None?
  {
    if Search(p, s).Some? {
      SearchFromFound(p, s, 0);
      var i := Search(p, s).value;
      assert 0 <= i <= |s| && MatchesAt(p, s, i);
    } else {
      SearchFromNone(p, s, 0);
    }
  }

  /** Without usable blocks, the result is the stripped text from the first C++ marker. */
  lemma ExtractCodeAtCppMarker(text: string, i: nat)
    requires UsableBlocks(FencedBlocks(text)) == []
    requires Search(CppEntry, text) == Some(i)
    ensures ExtractCode(text) == Strip(text[i..])
  {
  }

  /** Without usable blocks or a C++ marker, the result is the stripped text from the first Python marker. */
  lemma ExtractCodeAtPyMarker(text: string, i: nat)
    requires UsableBlocks(FencedBlocks(text)) == []
    requires Search(CppEntry, text).None? && Search(PyEntry, text) == Some(i)
    ensures ExtractCode(text) == Strip(text[i..])
  {
  }

  /** Without usable blocks and without any marker, nothing is extracted. */
  lemma ExtractCodeWithoutMarker(text: string)
    requires UsableBlocks(FencedBlocks(text)) == []
    requires Search(CppEntry, text).None? && Search(PyEntry, text).None?
    ensures ExtractCode(text) == []
  {
  }
}
