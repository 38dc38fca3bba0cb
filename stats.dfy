/**
 * The scoreboard commands (stats.py): `mcobjs`, `mcstat` and
 * `mcleaderboard`, in their prefix and slash forms. Each sends one command
 * over the remote console and turns the reply text into a message.
 */
module Stats {
  import opened Text
  import opened Utils

  // ---------------------------------------------------------------------
  // Reply pieces
  // ---------------------------------------------------------------------

  /** `raw.split(":", 1)[1].split(",") if ":" in raw else []` */
  function ReplyPieces(raw: string): (r: seq<string>) {
    if ':' in raw then Split(AfterFirst(raw, ':'), ',') else []
  }

  /** No `:` gives no piece; otherwise there is one piece per `,` after the
      first `:`, plus one. */
  lemma ReplyPiecesCount(raw: string)
    ensures ':' !in raw ==> ReplyPieces(raw) == []
    ensures ':' in raw ==> |ReplyPieces(raw)| == Count(AfterFirst(raw, ':'), ',') + 1
  {
    if ':' in raw {
      SplitCount(AfterFirst(raw, ':'), ',');
    }
  }

  /** The pieces, joined back with `,`, are exactly the text after the first
      `:`. */
  lemma ReplyPiecesJoin(raw: string)
    requires ':' in raw
    ensures Join(ReplyPieces(raw), ",") == AfterFirst(raw, ':')
    ensures forall i :: 0 <= i < |ReplyPieces(raw)| ==> ',' !in ReplyPieces(raw)[i]
  {
    JoinSplit(AfterFirst(raw, ':'), ',');
  }

  // ---------------------------------------------------------------------
  // mcobjs: the objective list
  // ---------------------------------------------------------------------

  /** `o.strip().split(" ", 1)[0]` */
  function ObjectiveName(o: string): string {
    BeforeFirst(Strip(o), ' ')
  }

  /** The names of the objectives in a `scoreboard objectives list` reply. */
  function ObjectiveNames(raw: string): (names: seq<string>)
    ensures |names| == |ReplyPieces(raw)|
  {
    var pieces := ReplyPieces(raw);
    seq(|pieces|, i requires 0 <= i < |pieces| => ObjectiveName(pieces[i]))
  }

  /** Each name is the stripped piece up to its first space: it holds no
      space, and the stripped piece starts with it. */
  lemma ObjectiveNameShape(o: string)
    ensures ' ' !in ObjectiveName(o)
    ensures ' ' in Strip(o) ==> ObjectiveName(o) + [' '] + AfterFirst(Strip(o), ' ') == Strip(o)
    ensures ' ' !in Strip(o) ==> ObjectiveName(o) == Strip(o)
  {
    SplitAtFirst(Strip(o), ' ');
  }

  /** No `:` means no objective; otherwise one name per `,`-piece. */
  lemma ObjectiveNamesCount(raw: string)
    ensures ':' !in raw ==> ObjectiveNames(raw) == []
    ensures ':' in raw ==> |ObjectiveNames(raw)| == Count(AfterFirst(raw, ':'), ',') + 1
  {
    ReplyPiecesCount(raw);
  }

  // ---------------------------------------------------------------------
  // mcstat: the score in a `scoreboard players get` reply
  // ---------------------------------------------------------------------

  /** End of the run of digits that starts at `j`. */
  function EndOfDigits(s: string, j: nat): (k: nat)
    requires j <= |s|
    ensures j <= k <= |s|
    ensures k == |s| || !IsDigit(s[k])
    decreases |s| - j
  {
    if j < |s| && IsDigit(s[j]) then EndOfDigits(s, j + 1) else j
  }

  /** Everything from `j` up to the end of the run is a digit. */
  lemma {:induction false} EndOfDigitsAreDigits(s: string, j: nat)
    requires j <= |s|
    ensures forall m :: j <= m < EndOfDigits(s, j) ==> IsDigit(s[m])
    decreases |s| - j
  {
    if j < |s| && IsDigit(s[j]) {
      EndOfDigitsAreDigits(s, j + 1);
    }
  }

  /** `-?\d+` can match at `i`: a digit, or a `-` followed by a digit. */
  predicate MatchStartsAt(s: string, i: nat)
    requires i < |s|
  {
    IsDigit(s[i]) || (s[i] == '-' && i + 1 < |s| && IsDigit(s[i + 1]))
  }

  /** Where the match of `-?\d+` starts its digits. */
  function DigitsStart(s: string, i: nat): nat
    requires i < |s|
  {
    if s[i] == '-' then i + 1 else i
  }

  /** `re.search(r"(-?\d+)", s)` from position `i` on: the bounds of the
      leftmost match, which takes the longest run of digits. */
  function SearchSigned(s: string, i: nat): (r: Option<(nat, nat)>)
    requires i <= |s|
    ensures r.None? ==> forall k :: i <= k < |s| ==> !MatchStartsAt(s, k)
    ensures r.Some? ==>
      var (a, b) := r.value;
      && i <= a < |s| && MatchStartsAt(s, a)
      && (forall k :: i <= k < a ==> !MatchStartsAt(s, k))
      && b == EndOfDigits(s, DigitsStart(s, a))
    decreases |s| - i
  {
    if i == |s| then None
    else if MatchStartsAt(s, i) then Some((i, EndOfDigits(s, DigitsStart(s, i))))
    else SearchSigned(s, i + 1)
  }

  /** `m.group(1) if m else "0"` */
  function ExtractScore(raw: string): string {
    match SearchSigned(raw, 0)
    case None => "0"
    case Some((a, b)) => raw[a..b]
  }

  /** An optional `-` and at least one digit. */
  predicate IsSignedDigits(g: string) {
    IsDigits(g) || (|g| > 1 && g[0] == '-' && IsDigits(g[1..]))
  }

  /** A reply without any digit gives `"0"`. */
  lemma ExtractScoreWithoutDigits(raw: string)
    requires forall k :: 0 <= k < |raw| ==> !IsDigit(raw[k])
    ensures ExtractScore(raw) == "0"
  {
    assert forall k :: 0 <= k < |raw| ==> !MatchStartsAt(raw, k);
  }

  /** A reply with a digit gives its leftmost `-?digits` text, unchanged (so
      leading zeros are kept) and as long as the digits go. */
  lemma ExtractScoreWithDigits(raw: string, d: nat)
    requires d < |raw| && IsDigit(raw[d])
    ensures exists a, b ::
      && 0 <= a < b <= |raw| && ExtractScore(raw) == raw[a..b]
      && IsSignedDigits(raw[a..b])
      && (b == |raw| || !IsDigit(raw[b]))
      && (forall k :: 0 <= k < a ==> !MatchStartsAt(raw, k))
      && a <= d
  {
    assert MatchStartsAt(raw, d);
    var (a, b) := SearchSigned(raw, 0).value;
    MatchIsSignedDigits(raw, a);
  }

  /** The text a match of `-?\d+` at `i` covers is a signed digit run. */
  lemma MatchIsSignedDigits(s: string, i: nat)
    requires i < |s| && MatchStartsAt(s, i)
    ensures IsSignedDigits(s[i..EndOfDigits(s, DigitsStart(s, i))])
  {
    var j := DigitsStart(s, i);
    var e := EndOfDigits(s, j);
    var g := s[i..e];
    EndOfDigitsAreDigits(s, j);
    assert IsDigit(s[j]) && j < e;
    if s[i] == '-' {
      assert g[1..] == s[j..e];
    } else {
      assert g == s[j..e];
    }
  }

  /** The score text always converts with `int()`. */
  lemma SignedDigitsConvert(g: string)
    requires IsSignedDigits(g)
    ensures ParseInt(g) == Some(SignedValue(g))
  {
    if IsDigits(g) {
      assert ParseInt(g) == Some(DigitsValue(g)) by {
        ParseIntOfDigits(g);
      }
    } else {
      assert ParseInt(g) == Some(0 - DigitsValue(g[1..])) by {
        ParseIntOfNegativeDigits(g);
      }
    }
  }

  /** The value of a signed digit run. */
  function SignedValue(g: string): int
    requires IsSignedDigits(g)
  {
    if IsDigits(g) then DigitsValue(g) else 0 - DigitsValue(g[1..])
  }

  // ---------------------------------------------------------------------
  // mcleaderboard: parsing
  // ---------------------------------------------------------------------

  /** One parsed `<name> has <score>` piece. */
  datatype Score = Score(name: string, score: int)

  /** Length of the leading run of non-whitespace characters (`\S+`). */
  function NonSpaceRun(s: string): (k: nat)
    ensures k <= |s|
    ensures k == |s| || IsSpace(s[k])
  {
    if s != [] && !IsSpace(s[0]) then 1 + NonSpaceRun(s[1..]) else 0
  }

  /** The run holds no whitespace. */
  lemma {:induction false} NonSpaceRunHasNoSpace(s: string)
    ensures forall m :: 0 <= m < NonSpaceRun(s) ==> !IsSpace(s[m])
  {
    if s != [] && !IsSpace(s[0]) {
      NonSpaceRunHasNoSpace(s[1..]);
      assert forall m :: 1 <= m < NonSpaceRun(s) ==> s[m] == s[1..][m - 1];
    }
  }

  /** `s[k:k+5] == " has "` */
  predicate HasAt(s: string, k: nat) {
    && k + 5 <= |s|
    && s[k] == ' ' && s[k + 1] == 'h' && s[k + 2] == 'a' && s[k + 3] == 's' && s[k + 4] == ' '
  }

  /** `re.match(r"(\S+) has (-?\d+)", part)`: the whole leading non-space
      run is the name (a shorter one would be followed by a non-space, not by
      the space of " has "), then " has ", then an optional `-` and the
      longest run of digits. */
  function MatchEntry(part: string): (r: Option<Score>) {
    var k := NonSpaceRun(part);
    if k == 0 || !HasAt(part, k) then None
    else
      var j := k + 5;
      if j < |part| && MatchStartsAt(part, j) then
        var e := EndOfDigits(part, DigitsStart(part, j));
        var g := part[j..e];
        MatchIsSignedDigits(part, j);
        Some(Score(part[..k], SignedValue(g)))
      else None
  }

  /** A piece `name has g…` with a non-empty, space-free name and a signed
      digit run `g` not followed by a digit is matched, with `int(g)` as the
      score. */
  lemma MatchEntryOfWellFormed(name: string, g: string, rest: string)
    requires name != [] && forall m :: 0 <= m < |name| ==> !IsSpace(name[m])
    requires IsSignedDigits(g)
    requires rest == [] || !IsDigit(rest[0])
    ensures MatchEntry(name + " has " + g + rest) == Some(Score(name, SignedValue(g)))
    ensures ParseInt(g) == Some(SignedValue(g))
  {
    var part := name + " has " + g + rest;
    var k := |name|;
    var e := k + 5 + |g|;
    ConcatParts(name, " has ", g, rest);
    assert forall m :: 0 <= m < k ==> part[m] == part[..k][m];
    assert HasAt(part, k) by {
      assert forall m :: k <= m < k + 5 ==> part[m] == part[k..k + 5][m - k];
    }
    assert e < |part| ==> part[e] == rest[0] by {
      if e < |part| {
        assert part[e] == part[e..][0];
      }
    }
    MatchEntryOfParts(part, k, e);
    SignedDigitsConvert(g);
  }

  /** `a + b + c + d`, cut back into its four parts. */
  lemma ConcatParts(a: string, b: string, c: string, d: string)
    ensures var s := a + b + c + d;
      && s[..|a|] == a
      && s[|a|..|a| + |b|] == b
      && s[|a| + |b|..|a| + |b| + |c|] == c
      && s[|a| + |b| + |c|..] == d
  {
  }

  /** The match on a piece laid out as a space-free name, " has ", a signed
      digit run and a non-digit or the end. */
  lemma MatchEntryOfParts(part: string, k: nat, e: nat)
    requires 0 < k && k + 5 < e <= |part|
    requires forall m :: 0 <= m < k ==> !IsSpace(part[m])
    requires HasAt(part, k) && IsSignedDigits(part[k + 5..e])
    requires e == |part| || !IsDigit(part[e])
    ensures MatchEntry(part) == Some(Score(part[..k], SignedValue(part[k + 5..e])))
  {
    var j := k + 5;
    var g := part[j..e];
    NonSpaceRunOf(part, k);
    assert MatchStartsAt(part, j) by {
      assert part[j] == g[0];
      if !IsDigit(g[0]) { assert part[j + 1] == g[1]; }
    }
    var d := DigitsStart(part, j);
    assert forall m :: d <= m < e ==> IsDigit(part[m]) by {
      forall m | d <= m < e ensures IsDigit(part[m]) {
        assert part[m] == g[m - j];
        if d > j {
          assert g[m - j] == g[1..][m - j - 1];
        }
      }
    }
    EndOfDigitsOf(part, d, e);
  }

  lemma NonSpaceRunOf(s: string, k: nat)
    requires k < |s| && IsSpace(s[k])
    requires forall m :: 0 <= m < k ==> !IsSpace(s[m])
    ensures NonSpaceRun(s) == k
  {
    if k > 0 {
      NonSpaceRunOf(s[1..], k - 1);
    }
  }

  lemma EndOfDigitsOf(s: string, j: nat, k: nat)
    requires j <= k <= |s|
    requires forall m :: j <= m < k ==> IsDigit(s[m])
    requires k == |s| || !IsDigit(s[k])
    ensures EndOfDigits(s, j) == k
    decreases k - j
  {
    if j < k {
      EndOfDigitsOf(s, j + 1, k);
    }
  }

  /** A matched piece starts with the name, " has " and the score text; the
      name is non-empty and has no whitespace. */
  lemma MatchEntryShape(part: string)
    requires MatchEntry(part).Some?
    ensures var e := MatchEntry(part).value;
      && e.name != [] && (forall m :: 0 <= m < |e.name| ==> !IsSpace(e.name[m]))
      && exists g, rest :: part == e.name + " has " + g + rest && IsSignedDigits(g) && SignedValue(g) == e.score
  {
    var k := NonSpaceRun(part);
    var j := k + 5;
    var e := EndOfDigits(part, DigitsStart(part, j));
    var g := part[j..e];
    MatchIsSignedDigits(part, j);
    NonSpaceRunHasNoSpace(part);
    assert part[k..j] == " has " by {
      assert HasAt(part, k);
    }
    SliceFour(part, k, j, e);
    assert part == part[..k] + " has " + g + part[e..];
  }

  lemma SliceFour(s: string, a: nat, b: nat, c: nat)
    requires a <= b <= c <= |s|
    ensures s == s[..a] + s[a..b] + s[b..c] + s[c..]
  {
    assert s[..b] == s[..a] + s[a..b];
    assert s[..c] == s[..b] + s[b..c];
    assert s == s[..c] + s[c..];
  }

  /** What one piece contributes: `part = part.strip()`, then the match. */
  function PieceEntry(piece: string): Option<Score> {
    MatchEntry(Strip(piece))
  }

  /** The values `f` finds in `parts`, in order, skipping the pieces it
      finds nothing in. */
  function Collect(f: string -> Option<Score>, parts: seq<string>): seq<Score> {
    if parts == [] then []
    else
      Collect(f, parts[..|parts| - 1]) + Found(f, parts[|parts| - 1])
  }

  function Found(f: string -> Option<Score>, piece: string): seq<Score> {
    match f(piece) case Some(e) => [e] case None => []
  }

  lemma CollectStep(f: string -> Option<Score>, parts: seq<string>, i: nat)
    requires i < |parts|
    ensures Collect(f, parts[..i + 1]) == Collect(f, parts[..i]) + Found(f, parts[i])
  {
    assert parts[..i + 1][..i] == parts[..i];
  }

  /** The parsed entries of a sequence of pieces, in reply order: each piece
      is stripped and kept when it matches. */
  function Entries(parts: seq<string>): seq<Score> {
    Collect(PieceEntry, parts)
  }

  /** The `for part in parts` loop of `mcleaderboard`. */
  method ParseEntries(parts: seq<string>) returns (entries: seq<Score>)
    ensures entries == Entries(parts)
  {
    entries := [];
    var i := 0;
    while i < |parts|
      invariant 0 <= i <= |parts|
      invariant entries == Entries(parts[..i])
    {
      var part := Strip(parts[i]);
      var m := MatchEntry(part);
      if m.Some? {
        entries := entries + [m.value];
      }
      EntriesStep(parts, i, m);
      i := i + 1;
    }
    assert parts[..i] == parts;
  }

  lemma EntriesStep(parts: seq<string>, i: nat, m: Option<Score>)
    requires i < |parts| && m == MatchEntry(Strip(parts[i]))
    ensures Entries(parts[..i + 1]) == Entries(parts[..i]) + (if m.Some? then [m.value] else [])
  {
    CollectStep(PieceEntry, parts, i);
    assert Found(PieceEntry, parts[i]) == if m.Some? then [m.value] else [];
  }

  lemma {:induction false} CollectOfConcat(f: string -> Option<Score>, a: seq<string>, b: seq<string>)
    ensures Collect(f, a + b) == Collect(f, a) + Collect(f, b)
    decreases |b|
  {
    if b != [] {
      var ab := a + b;
      var x := Found(f, b[|b| - 1]);
      assert ab[..|ab| - 1] == a + b[..|b| - 1];
      assert ab[|ab| - 1] == b[|b| - 1];
      CollectOfConcat(f, a, b[..|b| - 1]);
      assert Collect(f, b) == Collect(f, b[..|b| - 1]) + x;
      assert Collect(f, ab) == Collect(f, ab[..|ab| - 1]) + x;
    } else {
      assert a + b == a;
    }
  }

  lemma {:induction false} CollectMembers(f: string -> Option<Score>, parts: seq<string>, e: Score)
    ensures e in Collect(f, parts) <==> exists i :: 0 <= i < |parts| && f(parts[i]) == Some(e)
  {
    if parts != [] {
      var init := parts[..|parts| - 1];
      CollectMembers(f, init, e);
      if e in Collect(f, init) {
        var i :| 0 <= i < |init| && f(init[i]) == Some(e);
        assert parts[i] == init[i];
      }
      if exists i :: 0 <= i < |parts| && f(parts[i]) == Some(e) {
        var i :| 0 <= i < |parts| && f(parts[i]) == Some(e);
        if i < |init| {
          assert init[i] == parts[i];
        }
      }
    }
  }

  /** Parsing keeps reply order: the entries of two runs of pieces are the
      entries of the first followed by those of the second. */
  lemma EntriesOfConcat(a: seq<string>, b: seq<string>)
    ensures Entries(a + b) == Entries(a) + Entries(b)
  {
    CollectOfConcat(PieceEntry, a, b);
  }

  /** An entry is kept exactly when some piece, stripped, matches to it. */
  lemma EntriesMembers(parts: seq<string>, e: Score)
    ensures e in Entries(parts) <==> exists i :: 0 <= i < |parts| && MatchEntry(Strip(parts[i])) == Some(e)
  {
    CollectMembers(PieceEntry, parts, e);
    assert forall i :: 0 <= i < |parts| ==> PieceEntry(parts[i]) == MatchEntry(Strip(parts[i]));
  }

  // ---------------------------------------------------------------------
  // mcleaderboard: sorting and slicing
  // ---------------------------------------------------------------------

  /** Non-increasing by score. */
  ghost predicate SortedDesc(s: seq<Score>) {
    forall i, j :: 0 <= i < j < |s| ==> s[i].score >= s[j].score
  }

  /** The entries that have score `v`, in order. */
  function WithScore(s: seq<Score>, v: int): seq<Score> {
    if s == [] then []
    else (if s[0].score == v then [s[0]] else []) + WithScore(s[1..], v)
  }

  /** Places `e` ahead of the first entry whose score is not above its own. */
  function Insert(e: Score, s: seq<Score>): seq<Score> {
    if s == [] || s[0].score <= e.score then [e] + s
    else [s[0]] + Insert(e, s[1..])
  }

  /** `entries.sort(key=lambda x: x[1], reverse=True)`: Python's sort is
      stable, also when reversed, so entries with equal scores keep their
      reply order. */
  function SortByScore(s: seq<Score>): seq<Score> {
    if s == [] then [] else Insert(s[0], SortByScore(s[1..]))
  }

  lemma {:induction false} InsertPermutes(e: Score, s: seq<Score>)
    ensures multiset(Insert(e, s)) == multiset(s) + multiset{e}
  {
    if s == [] || s[0].score <= e.score {
      assert multiset([e] + s) == multiset{e} + multiset(s);
    } else {
      InsertPermutes(e, s[1..]);
      assert s == [s[0]] + s[1..];
      assert multiset([s[0]] + Insert(e, s[1..])) == multiset{s[0]} + multiset(Insert(e, s[1..]));
    }
  }

  /** Inserting keeps every score at most `v` when `e`'s is. */
  lemma {:induction false} InsertBounded(e: Score, s: seq<Score>, v: int)
    requires e.score <= v && forall i :: 0 <= i < |s| ==> s[i].score <= v
    ensures forall i :: 0 <= i < |Insert(e, s)| ==> Insert(e, s)[i].score <= v
  {
    if !(s == [] || s[0].score <= e.score) {
      InsertBounded(e, s[1..], v);
      var t := Insert(e, s[1..]);
      assert forall i :: 0 <= i < |[s[0]] + t| ==> ([s[0]] + t)[i] == if i == 0 then s[0] else t[i - 1];
    }
  }

  lemma SortedCons(x: Score, t: seq<Score>)
    requires SortedDesc(t) && forall i :: 0 <= i < |t| ==> t[i].score <= x.score
    ensures SortedDesc([x] + t)
  {
    var r := [x] + t;
    forall i, j | 0 <= i < j < |r| ensures r[i].score >= r[j].score {
      assert r[j] == t[j - 1];
      if i > 0 {
        assert r[i] == t[i - 1];
      }
    }
  }

  lemma {:induction false} InsertSorted(e: Score, s: seq<Score>)
    requires SortedDesc(s)
    ensures SortedDesc(Insert(e, s))
  {
    if s == [] || s[0].score <= e.score {
      SortedCons(e, s);
    } else {
      assert SortedDesc(s[1..]) by {
        forall i, j | 0 <= i < j < |s[1..]| ensures s[1..][i].score >= s[1..][j].score {
          assert s[1..][i] == s[i + 1] && s[1..][j] == s[j + 1];
        }
      }
      InsertSorted(e, s[1..]);
      assert forall i :: 0 <= i < |s[1..]| ==> s[1..][i].score <= s[0].score by {
        forall i | 0 <= i < |s[1..]| ensures s[1..][i].score <= s[0].score {
          assert s[1..][i] == s[i + 1];
        }
      }
      InsertBounded(e, s[1..], s[0].score);
      SortedCons(s[0], Insert(e, s[1..]));
    }
  }

  /** Inserting does not disturb the order of any score class, and puts `e`
      first among the entries of its own score. */
  lemma {:induction false} InsertWithScore(e: Score, s: seq<Score>, v: int)
    ensures WithScore(Insert(e, s), v) == (if e.score == v then [e] else []) + WithScore(s, v)
  {
    if s == [] || s[0].score <= e.score {
      WithScoreCons(e, s, v);
    } else {
      var t := Insert(e, s[1..]);
      InsertWithScore(e, s[1..], v);
      WithScoreCons(s[0], t, v);
      WithScoreCons(s[0], s[1..], v);
      assert [s[0]] + s[1..] == s;
      if e.score == v {
        assert s[0].score != v;
      }
    }
  }

  lemma WithScoreCons(x: Score, t: seq<Score>, v: int)
    ensures WithScore([x] + t, v) == (if x.score == v then [x] else []) + WithScore(t, v)
  {
    assert ([x] + t)[1..] == t;
  }

  /** The sort yields a permutation of the parsed entries, ordered
      non-increasing by score. */
  lemma {:induction false} SortByScoreSortsAndPermutes(s: seq<Score>)
    ensures SortedDesc(SortByScore(s))
    ensures multiset(SortByScore(s)) == multiset(s)
  {
    if s != [] {
      SortByScoreSortsAndPermutes(s[1..]);
      InsertSorted(s[0], SortByScore(s[1..]));
      InsertPermutes(s[0], SortByScore(s[1..]));
      assert s == [s[0]] + s[1..];
    }
  }

  /** The sort is stable: the entries of every score keep their reply
      order. */
  lemma {:induction false} SortByScoreStable(s: seq<Score>, v: int)
    ensures WithScore(SortByScore(s), v) == WithScore(s, v)
  {
    if s != [] {
      SortByScoreStable(s[1..], v);
      InsertWithScore(s[0], SortByScore(s[1..]), v);
    }
  }

  /** `s[:count]` with Python's reading of a negative bound: counted back
      from the end, and never below the start. */
  function Take(s: seq<Score>, count: int): (r: seq<Score>) {
    if count >= 0 then (if count <= |s| then s[..count] else s)
    else if |s| + count >= 0 then s[..|s| + count] else []
  }

  lemma TakeLength(s: seq<Score>, count: int)
    ensures count >= 0 ==> |Take(s, count)| == if count <= |s| then count else |s|
    ensures count < 0 ==> |Take(s, count)| == if |s| + count >= 0 then |s| + count else 0
    ensures Take(s, count) == s[..|Take(s, count)|]
  {
  }

  // ---------------------------------------------------------------------
  // The commands
  // ---------------------------------------------------------------------

  /** What a command did: the remote-console requests it made (none or
      one) and the message it answered with. */
  datatype Handled<R> = Handled(sent: seq<RconRequest>, reply: R)

  datatype ObjsReply = ObjectivesError(error: string) | NoObjectives | Objectives(names: string)

  /** `mcobjs` and `/mcobjs`: the names joined by ", ", or "No objectives
      found." when there is none. */
  function McObjs(configs: GuildConfigs, guild: string, d: Defaults, session: Session): (h: Handled<ObjsReply>) {
    var run := RunRconCommand("scoreboard objectives list", GuildConfig(configs, guild, d), session);
    Handled(run.sent,
      match run.outcome
      case Err(e) => ObjectivesError(e)
      case Ok(raw) =>
        var names := ObjectiveNames(raw);
        if names == [] then NoObjectives else Objectives(Join(names, ", ")))
  }

  /** The objective list is reported empty exactly when the reply has no
      `:`. */
  lemma McObjsEmpty(configs: GuildConfigs, guild: string, d: Defaults, session: Session)
    ensures var h := McObjs(configs, guild, d, session);
      var run := RunRconCommand("scoreboard objectives list", GuildConfig(configs, guild, d), session);
      && h.sent == run.sent
      && (run.outcome.Ok? ==> (h.reply == NoObjectives <==> ':' !in run.outcome.value))
      && (run.outcome.Err? ==> h.reply == ObjectivesError(run.outcome.error))
  {
    var run := RunRconCommand("scoreboard objectives list", GuildConfig(configs, guild, d), session);
    if run.outcome.Ok? {
      ObjectiveNamesCount(run.outcome.value);
    }
  }

  datatype StatReply = StatUsage | StatError(error: string) | StatScore(player: string, score: string, objective: string)

  /** `not x` for an optional text argument. */
  predicate Missing(x: Option<string>) {
    x.None? || x.value == ""
  }

  /** `/mcstat player objective` */
  function McStatSlash(configs: GuildConfigs, guild: string, d: Defaults,
                       player: string, objective: string, session: Session): (h: Handled<StatReply>) {
    var cmd := "scoreboard players get " + player + " " + objective;
    var run := RunRconCommand(cmd, GuildConfig(configs, guild, d), session);
    Handled(run.sent,
      match run.outcome
      case Err(e) => StatError(e)
      case Ok(raw) => StatScore(player, ExtractScore(raw), objective))
  }

  /** `!mcstat [player] [objective]`: the usage reply when either is missing
      or empty, otherwise the slash form. */
  function McStat(configs: GuildConfigs, guild: string, d: Defaults,
                  player: Option<string>, objective: Option<string>, session: Session): (h: Handled<StatReply>) {
    if Missing(player) || Missing(objective) then Handled([], StatUsage)
    else McStatSlash(configs, guild, d, player.value, objective.value, session)
  }

  /** A missing player or objective gives the usage reply without any
      request to the server, whatever the server would have answered. */
  lemma McStatGuard(configs: GuildConfigs, guild: string, d: Defaults,
                    player: Option<string>, objective: Option<string>, s1: Session, s2: Session)
    requires Missing(player) || Missing(objective)
    ensures McStat(configs, guild, d, player, objective, s1) == Handled([], StatUsage)
    ensures McStat(configs, guild, d, player, objective, s1) == McStat(configs, guild, d, player, objective, s2)
  {
  }

  /** With both present, the one request names the player and the objective,
      and the reported score is the text extracted from the reply. */
  lemma McStatSends(configs: GuildConfigs, guild: string, d: Defaults,
                    player: string, objective: string, session: Session)
    requires player != "" && objective != ""
    requires GuildConfig(configs, guild, d).password != ""
    ensures var h := McStat(configs, guild, d, Some(player), Some(objective), session);
      && |h.sent| == 1
      && h.sent[0].command == "scoreboard players get " + player + " " + objective
      && (session(h.sent[0]).Ok? ==> h.reply == StatScore(player, ExtractScore(session(h.sent[0]).value), objective))
  {
  }

  /** One field of the leaderboard: "`<rank>`. `<name>`" over the score. */
  datatype Field = Field(title: string, value: string)

  /** The ranked fields of the shown entries: ranks 1, 2, … in order. */
  function RankedFields(top: seq<Score>): (fs: seq<Field>)
    ensures |fs| == |top|
  {
    seq(|top|, k requires 0 <= k < |top| => Field(IntToString(k + 1) + ". " + top[k].name, IntToString(top[k].score)))
  }

  /** The `enumerate(entries[:count], start=1)` loop. */
  method Rank(top: seq<Score>) returns (fields: seq<Field>)
    ensures fields == RankedFields(top)
  {
    fields := [];
    var i := 0;
    while i < |top|
      invariant 0 <= i <= |top|
      invariant fields == RankedFields(top[..i])
    {
      fields := fields + [Field(IntToString(i + 1) + ". " + top[i].name, IntToString(top[i].score))];
      i := i + 1;
      assert RankedFields(top[..i]) == RankedFields(top[..i - 1]) + [fields[i - 1]];
    }
    assert top[..i] == top;
  }

  datatype BoardReply =
    | BoardUsage
    | BoardError(error: string)
    | NoScores(objective: string)
    | Board(objective: string, fields: seq<Field>)

  const DefaultCount := 5

  /** The standings of a `scoreboard players list` reply: the parsed entries,
      highest score first. */
  function Standings(raw: string): seq<Score> {
    SortByScore(Entries(ReplyPieces(raw)))
  }

  /** `/mcleaderboard objective [count]` */
  method McLeaderboardSlash(configs: GuildConfigs, guild: string, d: Defaults,
                            objective: string, count: Option<int>, session: Session)
    returns (h: Handled<BoardReply>)
    ensures var run := RunRconCommand("scoreboard players list " + objective, GuildConfig(configs, guild, d), session);
      && h.sent == run.sent
      && match run.outcome
         case Err(e) => h.reply == BoardError(e)
         case Ok(raw) =>
           var n := match count case Some(c) => c case None => DefaultCount;
           if Standings(raw) == [] then h.reply == NoScores(objective)
           else h.reply == Board(objective, RankedFields(Take(Standings(raw), n)))
  {
    var cfg := GuildConfig(configs, guild, d);
    var run := RunRconCommand("scoreboard players list " + objective, cfg, session);
    if run.outcome.Err? {
      return Handled(run.sent, BoardError(run.outcome.error));
    }
    var raw := run.outcome.value;
    var entries := ParseEntries(ReplyPieces(raw));
    if entries == [] {
      return Handled(run.sent, NoScores(objective));
    }
    entries := SortByScore(entries);
    var n := match count case Some(c) => c case None => DefaultCount;
    var fields := Rank(Take(entries, n));
    h := Handled(run.sent, Board(objective, fields));
  }

  /** `!mcleaderboard [objective] [count]`: the usage reply, with no request,
      when the objective is missing or empty; otherwise the slash form. */
  method McLeaderboard(configs: GuildConfigs, guild: string, d: Defaults,
                       objective: Option<string>, count: Option<int>, session: Session)
    returns (h: Handled<BoardReply>)
    ensures Missing(objective) ==> h == Handled([], BoardUsage)
    ensures !Missing(objective) ==>
      var run := RunRconCommand("scoreboard players list " + objective.value, GuildConfig(configs, guild, d), session);
      && h.sent == run.sent
      && match run.outcome
         case Err(e) => h.reply == BoardError(e)
         case Ok(raw) =>
           var n := match count case Some(c) => c case None => DefaultCount;
           if Standings(raw) == [] then h.reply == NoScores(objective.value)
           else h.reply == Board(objective.value, RankedFields(Take(Standings(raw), n)))
  {
    if Missing(objective) {
      return Handled([], BoardUsage);
    }
    h := McLeaderboardSlash(configs, guild, d, objective.value, count, session);
  }

  /** A board of standings `st` shows `min(count, len)` entries for a
      non-negative count, ranked 1, 2, … from the top of `st`. */
  lemma BoardShows(st: seq<Score>, count: nat)
    ensures var fs := RankedFields(Take(st, count));
      && |fs| == (if count <= |st| then count else |st|)
      && (forall k :: 0 <= k < |fs| ==> fs[k].title == IntToString(k + 1) + ". " + st[k].name)
      && (forall k :: 0 <= k < |fs| ==> fs[k].value == IntToString(st[k].score))
  {
    TakeLength(st, count);
    assert forall k :: 0 <= k < |Take(st, count)| ==> Take(st, count)[k] == st[k];
  }

  /** The standings are the parsed entries, highest score first, equal
      scores in reply order. */
  lemma StandingsOrder(raw: string, v: int)
    ensures SortedDesc(Standings(raw))
    ensures multiset(Standings(raw)) == multiset(Entries(ReplyPieces(raw)))
    ensures WithScore(Standings(raw), v) == WithScore(Entries(ReplyPieces(raw)), v)
  {
    SortByScoreSortsAndPermutes(Entries(ReplyPieces(raw)));
    SortByScoreStable(Entries(ReplyPieces(raw)), v);
  }

  /** No scores exactly when no piece of the reply matches. */
  lemma NoScoresWhenNothingMatches(raw: string)
    ensures Standings(raw) == [] <==> Entries(ReplyPieces(raw)) == []
  {
    var es := Entries(ReplyPieces(raw));
    SortByScoreSortsAndPermutes(es);
    if es != [] {
      assert es[0] in multiset(es);
      assert es[0] in multiset(Standings(raw));
    }
  }
}
