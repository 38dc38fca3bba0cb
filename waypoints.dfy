/**
 * The per-guild waypoint registry (waypoints.py): `!waypointadd`,
 * `!waypointremove`, `!waypoints`, `!waypointinfo`, their slash-command
 * forms, and the two-button paginator that pages through the listing.
 */
module Waypoints {
  import opened Text

  // ---------------------------------------------------------------------
  // Integer-looking arguments
  // ---------------------------------------------------------------------

  /** `s.lstrip('-')`: removes EVERY leading `-`. */
  function LStripDash(s: string): (r: string)
    ensures |r| <= |s| && r == s[|s| - |r|..]
    ensures r == [] || r[0] != '-'
  {
    if s != [] && s[0] == '-' then LStripDash(s[1..]) else s
  }

  /** Only dashes are stripped. */
  lemma {:induction false} LStripDashRemovesDashes(s: string, i: nat)
    requires i < |s| - |LStripDash(s)|
    ensures s[i] == '-'
  {
    if i > 0 {
      LStripDashRemovesDashes(s[1..], i - 1);
    }
  }

  /** `s.lstrip('-').isdigit()`, the test the coordinates must pass. */
  predicate LooksLikeInt(s: string) {
    IsDigits(LStripDash(s))
  }

  lemma FailsWithTwoDashes(s: string)
    requires |s| >= 2 && s[0] == '-' && s[1] == '-' && IsDigit(s[|s| - 1])
    ensures ParseInt(s) == None
  {
    ParseIntOfTrimmed(s);
    if GroupsValue(s[1..]).Some? {
      GroupsValueStartsWithDigit(s[1..]);
    }
  }

  /** An integer-looking argument without a leading `-` converts to the
      value of its digits. */
  lemma ConvertsWithoutDash(s: string)
    requires LooksLikeInt(s) && |s| == |LStripDash(s)|
    ensures ParseInt(s) == Some(DigitsValue(s))
  {
    assert ParseInt(s) == Some(DigitsValue(s)) by {
      assert s == LStripDash(s);
      ParseIntOfDigits(s);
    }
  }

  /** One leading `-` negates the value of the digits. */
  lemma ConvertsWithOneDash(s: string)
    requires LooksLikeInt(s) && |s| == |LStripDash(s)| + 1
    ensures ParseInt(s) == Some(0 - DigitsValue(LStripDash(s)))
  {
    OneDashShape(s);
    ParseIntOfNegativeDigits(s);
  }

  lemma OneDashShape(s: string)
    requires |s| == |LStripDash(s)| + 1
    ensures s[0] == '-' && s[1..] == LStripDash(s)
  {
    LStripDashRemovesDashes(s, 0);
  }

  /** Two or more leading dashes pass the test but not `int()`. */
  lemma FailsWithSeveralDashes(s: string)
    requires LooksLikeInt(s) && |s| >= |LStripDash(s)| + 2
    ensures ParseInt(s) == None
  {
    var d := LStripDash(s);
    assert ParseInt(s) == None by {
      assert s[|s| - 1] == d[|d| - 1];
      LStripDashRemovesDashes(s, 0);
      LStripDashRemovesDashes(s, 1);
      FailsWithTwoDashes(s);
    }
  }

  /** An integer-looking argument converts with `int()` exactly when it has
      at most one leading `-`; so `"--5"` passes the test and then fails the
      conversion. */
  lemma LooksLikeIntConverts(s: string)
    requires LooksLikeInt(s)
    ensures ParseInt(s).Some? <==> |s| - |LStripDash(s)| <= 1
  {
    var d := LStripDash(s);
    if |s| == |d| {
      ConvertsWithoutDash(s);
    } else if |s| == |d| + 1 {
      ConvertsWithOneDash(s);
    } else {
      FailsWithSeveralDashes(s);
    }
  }

  lemma DoubleDashLooksLikeIntButFails()
    ensures LooksLikeInt("--5") && ParseInt("--5") == None
  {
    assert LStripDash("--5") == "5" by {
      assert "--5"[1..] == "-5";
      assert "-5"[1..] == "5";
    }
    assert ParseInt("--5") == None by {
      FailsWithSeveralDashes("--5");
    }
  }

  // ---------------------------------------------------------------------
  // Records and the per-guild table
  // ---------------------------------------------------------------------

  /** A stored waypoint: `x` and `z` always, `y` optional, who added it and
      the date text it was added on. */
  datatype Waypoint = Waypoint(x: int, y: Option<int>, z: int, addedBy: int, addedAt: string)

  datatype Coords = Coords(x: int, y: Option<int>, z: int)

  /** One name → record pair of a guild's waypoint dictionary. */
  datatype Entry = Entry(key: string, wp: Waypoint)

  /** A guild's waypoint dictionary, in its insertion order. */
  type Table = seq<Entry>

  /** A dictionary never holds a key twice. */
  ghost predicate UniqueKeys(t: Table) {
    forall i, j :: 0 <= i < j < |t| ==> t[i].key != t[j].key
  }

  /** `wps.get(key)` */
  function Find(t: Table, key: string): Option<Waypoint> {
    if t == [] then None
    else if t[0].key == key then Some(t[0].wp)
    else Find(t[1..], key)
  }

  /** `del wps[key]`: the other entries keep their order. */
  function RemoveKey(t: Table, key: string): (r: Table)
    ensures |r| <= |t|
  {
    if t == [] then []
    else (if t[0].key == key then [] else [t[0]]) + RemoveKey(t[1..], key)
  }

  lemma {:induction false} FindNoneNoKey(t: Table, key: string, i: nat)
    requires Find(t, key).None? && i < |t|
    ensures t[i].key != key
  {
    if i > 0 {
      FindNoneNoKey(t[1..], key, i - 1);
    }
  }

  /** Inserting a new key at the end: that key now finds its record and no
      other key's lookup changes. */
  lemma {:induction false} FindAfterAppend(t: Table, e: Entry, key: string)
    requires Find(t, e.key).None?
    ensures Find(t + [e], key) == if key == e.key then Some(e.wp) else Find(t, key)
  {
    if t == [] {
    } else {
      assert (t + [e])[1..] == t[1..] + [e];
      if t[0].key != key {
        FindAfterAppend(t[1..], e, key);
      }
    }
  }

  lemma {:induction false} UniqueKeysAfterAppend(t: Table, e: Entry)
    requires UniqueKeys(t) && Find(t, e.key).None?
    ensures UniqueKeys(t + [e])
  {
    forall i, j | 0 <= i < j < |t + [e]| ensures (t + [e])[i].key != (t + [e])[j].key {
      if j == |t| {
        FindNoneNoKey(t, e.key, i);
      }
    }
  }

  /** Deleting a key: it finds nothing afterwards and every other key finds
      what it found before. */
  lemma {:induction false} FindAfterRemove(t: Table, key: string, other: string)
    ensures Find(RemoveKey(t, key), other) == if other == key then None else Find(t, other)
  {
    if t != [] {
      FindAfterRemove(t[1..], key, other);
      var rest := RemoveKey(t[1..], key);
      if t[0].key != key {
        assert RemoveKey(t, key) == [t[0]] + rest;
        assert ([t[0]] + rest)[1..] == rest;
      } else {
        assert RemoveKey(t, key) == rest;
      }
    }
  }

  lemma {:induction false} RemoveKeyKeepsUnique(t: Table, key: string)
    requires UniqueKeys(t)
    ensures UniqueKeys(RemoveKey(t, key))
    ensures forall e :: e in RemoveKey(t, key) ==> e in t
  {
    if t != [] {
      UniqueKeysOfTail(t);
      RemoveKeyKeepsUnique(t[1..], key);
      var rest := RemoveKey(t[1..], key);
      if t[0].key != key {
        var r := [t[0]] + rest;
        assert RemoveKey(t, key) == r;
        forall i, j | 0 <= i < j < |r| ensures r[i].key != r[j].key {
          assert r[j] == rest[j - 1] && rest[j - 1] in rest;
          var k :| 0 <= k < |t[1..]| && t[1..][k] == rest[j - 1];
          assert t[k + 1] == r[j];
          if i > 0 {
            assert r[i] == rest[i - 1];
          }
        }
      } else {
        assert RemoveKey(t, key) == rest;
      }
    }
  }

  lemma UniqueKeysOfTail(t: Table)
    requires UniqueKeys(t) && t != []
    ensures UniqueKeys(t[1..])
  {
    forall i, j | 0 <= i < j < |t[1..]| ensures t[1..][i].key != t[1..][j].key {
      assert t[1..][i] == t[i + 1] && t[1..][j] == t[j + 1];
    }
  }

  /** Deleting a present key of a dictionary removes exactly one entry. */
  lemma {:induction false} RemoveKeyCount(t: Table, key: string)
    requires UniqueKeys(t) && Find(t, key).Some?
    ensures |RemoveKey(t, key)| == |t| - 1
  {
    if t[0].key == key {
      forall i | 0 <= i < |t[1..]| ensures t[1..][i].key != key {
        assert t[1..][i] == t[i + 1];
      }
      NotPresentUnchanged(t[1..], key);
    } else {
      UniqueKeysOfTail(t);
      RemoveKeyCount(t[1..], key);
    }
  }

  lemma {:induction false} NotPresentUnchanged(t: Table, key: string)
    requires forall i :: 0 <= i < |t| ==> t[i].key != key
    ensures RemoveKey(t, key) == t
  {
    if t != [] {
      NotPresentUnchanged(t[1..], key);
    }
  }

  // ---------------------------------------------------------------------
  // Names
  // ---------------------------------------------------------------------

  /** `" ".join(name_parts).lower()`, the dictionary key of a name. */
  function NameKey(parts: seq<string>): string {
    Lower(Join(parts, " "))
  }

  function LowerAll(parts: seq<string>): (r: seq<string>)
    ensures |r| == |parts|
  {
    if parts == [] then [] else [Lower(parts[0])] + LowerAll(parts[1..])
  }

  lemma {:induction false} LowerOfJoin(parts: seq<string>)
    ensures Lower(Join(parts, " ")) == Join(LowerAll(parts), " ")
  {
    if |parts| > 1 {
      LowerOfJoin(parts[1..]);
      LowerOfConcat(parts[0] + " ", Join(parts[1..], " "));
      LowerOfConcat(parts[0], " ");
      assert LowerAll(parts)[1..] == LowerAll(parts[1..]);
    }
  }

  lemma {:induction false} LowerAllSame(ps: seq<string>, qs: seq<string>)
    requires |ps| == |qs| && forall i :: 0 <= i < |ps| ==> Lower(ps[i]) == Lower(qs[i])
    ensures LowerAll(ps) == LowerAll(qs)
  {
    if ps != [] {
      LowerAllSame(ps[1..], qs[1..]);
    }
  }

  /** Names look up without regard to ASCII case: words that agree up to
      case give the same key. */
  lemma NameKeyIgnoresCase(ps: seq<string>, qs: seq<string>)
    requires |ps| == |qs| && forall i :: 0 <= i < |ps| ==> Lower(ps[i]) == Lower(qs[i])
    ensures NameKey(ps) == NameKey(qs)
  {
    LowerOfJoin(ps);
    LowerOfJoin(qs);
    LowerAllSame(ps, qs);
  }

  /** A name given to a slash command as one text and the same name typed as
      space-separated words of a prefix command give the same key. */
  lemma SlashAndPrefixKeysAgree(name: string)
    ensures NameKey(Split(name, ' ')) == Lower(name)
  {
    JoinSplit(name, ' ');
  }

  // ---------------------------------------------------------------------
  // !waypointadd argument parsing
  // ---------------------------------------------------------------------

  /** The replies `!waypointadd` / `/waypointadd` refuse with. */
  datatype AddError =
    | AddUsage                  // fewer than three arguments
    | NotIntegers               // "Coordinates must be integers."
    | NoName                    // "You must provide a name."
    | AlreadyExists(key: string)

  /** The coordinate forms `<x> <y> <z> <name…>` (when there are at least
      four arguments and the first three look like integers) and
      `<x> <z> <name…>`. */
  function ParseCoords(args: seq<string>): (r: Result<(Coords, seq<string>), AddError>)
    requires |args| >= 3
  {
    if |args| >= 4 && LooksLikeInt(args[0]) && LooksLikeInt(args[1]) && LooksLikeInt(args[2]) then
      match (ParseInt(args[0]), ParseInt(args[1]), ParseInt(args[2]))
      case (Some(x), Some(y), Some(z)) => Ok((Coords(x, Some(y), z), args[3..]))
      case _ => Err(NotIntegers)
    else if LooksLikeInt(args[0]) && LooksLikeInt(args[1]) then
      match (ParseInt(args[0]), ParseInt(args[1]))
      case (Some(x), Some(z)) => Ok((Coords(x, None, z), args[2..]))
      case _ => Err(NotIntegers)
    else Err(NotIntegers)
  }

  /** What `!waypointadd <args>` decides before it looks at the dictionary:
      the coordinates and the key. */
  function ParseAdd(args: seq<string>): Result<(Coords, string), AddError> {
    if |args| < 3 then Err(AddUsage)
    else
      match ParseCoords(args)
      case Err(e) => Err(e)
      case Ok((c, nameParts)) =>
        if nameParts == [] then Err(NoName) else Ok((c, NameKey(nameParts)))
  }

  /** The "must provide a name" reply can never be reached: every successful
      coordinate parse leaves at least one name word. */
  lemma NameAlwaysPresent(args: seq<string>)
    ensures ParseAdd(args) != Err(NoName)
  {
  }

  /** Four or more arguments whose first three look like integers are the
      `<x> <y> <z> <name…>` form, and any of the three failing `int()` is an
      error: the two-coordinate form is not tried then. */
  lemma ParseAddThreeCoords(args: seq<string>)
    requires |args| >= 4 && LooksLikeInt(args[0]) && LooksLikeInt(args[1]) && LooksLikeInt(args[2])
    ensures ParseInt(args[0]).Some? && ParseInt(args[1]).Some? && ParseInt(args[2]).Some? ==>
              ParseAdd(args) == Ok((Coords(ParseInt(args[0]).value, Some(ParseInt(args[1]).value), ParseInt(args[2]).value),
                                    NameKey(args[3..])))
    ensures ParseInt(args[0]).None? || ParseInt(args[1]).None? || ParseInt(args[2]).None? ==>
              ParseAdd(args) == Err(NotIntegers)
  {
  }

  /** Otherwise, when the first two look like integers, it is the
      `<x> <z> <name…>` form. */
  lemma ParseAddTwoCoords(args: seq<string>)
    requires |args| >= 3 && LooksLikeInt(args[0]) && LooksLikeInt(args[1])
    requires !(|args| >= 4 && LooksLikeInt(args[2]))
    ensures ParseInt(args[0]).Some? && ParseInt(args[1]).Some? ==>
              ParseAdd(args) == Ok((Coords(ParseInt(args[0]).value, None, ParseInt(args[1]).value), NameKey(args[2..])))
    ensures ParseInt(args[0]).None? || ParseInt(args[1]).None? ==> ParseAdd(args) == Err(NotIntegers)
  {
  }

  /** Fewer than three arguments is the usage reply; a first or second
      argument that does not look like an integer is "must be integers". */
  lemma ParseAddRefusals(args: seq<string>)
    ensures |args| < 3 ==> ParseAdd(args) == Err(AddUsage)
    ensures |args| >= 3 && !(LooksLikeInt(args[0]) && LooksLikeInt(args[1])) ==> ParseAdd(args) == Err(NotIntegers)
  {
  }

  /** With exactly three arguments the three-coordinate form is never
      tried: `!waypointadd 1 2 3` stores x = 1, z = 2 under the name "3". */
  lemma ThreeArgumentsAreTwoCoordinates(a: string, b: string, c: string)
    requires LooksLikeInt(a) && LooksLikeInt(b) && ParseInt(a).Some? && ParseInt(b).Some?
    ensures ParseAdd([a, b, c]) == Ok((Coords(ParseInt(a).value, None, ParseInt(b).value), Lower(c)))
  {
    var args := [a, b, c];
    var coords := Coords(ParseInt(a).value, None, ParseInt(b).value);
    assert ParseCoords(args) == Ok((coords, [c])) by {
      assert |args| == 3 && args[0] == a && args[1] == b;
      assert args[2..] == [c];
    }
    assert NameKey([c]) == Lower(c) by {
      assert Join([c], " ") == c;
    }
  }

  /** The command's help shows a trailing `<y>` (`<x> <z> <name> <y>`), but
      with four arguments whose third (the name) does not look like an
      integer the two-coordinate form is taken, and the `y` becomes the last
      word of the name: `!waypointadd 100 20 HomeBase 64` stores x = 100,
      z = 20 and no y, under the key "homebase 64" (see
      `NameKeyOfTwoWords`). */
  lemma HelpFormYLastJoinsName(args: seq<string>)
    requires |args| == 4 && LooksLikeInt(args[0]) && LooksLikeInt(args[1]) && !LooksLikeInt(args[2])
    requires ParseInt(args[0]).Some? && ParseInt(args[1]).Some?
    ensures ParseAdd(args) == Ok((Coords(ParseInt(args[0]).value, None, ParseInt(args[1]).value), NameKey(args[2..])))
  {
    ParseAddTwoCoords(args);
  }

  /** Two name words give the key of the words joined by one space. */
  lemma NameKeyOfTwoWords(a: string, b: string)
    ensures NameKey([a, b]) == Lower(a + " " + b)
  {
    assert [a, b][1..] == [b];
    assert Join([a, b], " ") == a + " " + b;
  }

  // ---------------------------------------------------------------------
  // Listing
  // ---------------------------------------------------------------------

  /** One line of the listing: the title-cased name and the coordinates. */
  datatype Line = Line(name: string, coords: string)

  /** "`X: x, Y: y, Z: z`", without the `Y` part when `y` is absent. */
  function CoordText(w: Waypoint): string {
    "`X: " + IntToString(w.x)
    + (if w.y.Some? then ", Y: " + IntToString(w.y.value) else "")
    + ", Z: " + IntToString(w.z) + "`"
  }

  function LineOf(e: Entry): Line {
    Line(Title(e.key), CoordText(e.wp))
  }

  /** The listing of a dictionary: one line per waypoint, in dictionary
      order. */
  function Listing(t: Table): (lines: seq<Line>)
    ensures |lines| == |t|
    ensures forall i :: 0 <= i < |t| ==> lines[i] == LineOf(t[i])
  {
    seq(|t|, i requires 0 <= i < |t| => LineOf(t[i]))
  }

  /** The loop over `wps.items()`. */
  method ListLines(t: Table) returns (lines: seq<Line>)
    ensures lines == Listing(t)
  {
    lines := [];
    var i := 0;
    while i < |t|
      invariant 0 <= i <= |t|
      invariant |lines| == i
      invariant forall j :: 0 <= j < i ==> lines[j] == LineOf(t[j])
    {
      lines := lines + [LineOf(t[i])];
      i := i + 1;
    }
  }

  const PageSize := 5

  function Min(a: int, b: int): int { if a < b then a else b }

  /** Page `k` of a listing of `lines`: `lines[5k : 5k+5]`. */
  function PageAt(lines: seq<Line>, k: nat): seq<Line>
    requires PageSize * k <= |lines|
  {
    lines[PageSize * k .. Min(PageSize * k + PageSize, |lines|)]
  }

  /** The source's page total, `(len(entries) - 1) // 5 + 1`. */
  function PageTotal(n: nat): int {
    (n - 1) / PageSize + 1
  }

  function Footer(page: int, total: int, tail: string): string {
    "Page " + IntToString(page) + "/" + IntToString(total) + tail
  }

  /** What follows the page numbers in a footer: " • Requested by <name>"
      for `!waypoints`, " • <name>" for `/waypoints`. */
  function FooterTail(requesterName: string, slash: bool): string {
    if slash then " • " + requesterName else " • Requested by " + requesterName
  }

  /** `pages` is the listing of `lines` cut into consecutive pages of five. */
  ghost predicate IsPaging(lines: seq<Line>, pages: seq<seq<Line>>) {
    && |pages| == (|lines| + PageSize - 1) / PageSize
    && forall k :: 0 <= k < |pages| ==> PageSize * k <= |lines| && pages[k] == PageAt(lines, k)
  }

  /** The `for i in range(0, len(entries), 5)` loop: one page and one footer
      per five lines. */
  method Paginate(lines: seq<Line>, tail: string) returns (pages: seq<seq<Line>>, footers: seq<string>)
    ensures IsPaging(lines, pages)
    ensures |footers| == |pages|
    ensures forall k :: 0 <= k < |pages| ==> footers[k] == Footer(k + 1, PageTotal(|lines|), tail)
  {
    pages, footers := [], [];
    var total := PageTotal(|lines|);
    var i := 0;
    while i < |lines|
      invariant i == PageSize * |pages|
      invariant PagedSoFar(lines, pages, footers, total, tail)
      decreases |lines| - i
    {
      var page := lines[i..Min(i + 5, |lines|)];
      PageNumber(i, |pages|);
      var footer := Footer(i / 5 + 1, total, tail);
      PagedStep(lines, pages, footers, total, tail);
      pages := pages + [page];
      footers := footers + [footer];
      i := i + 5;
    }
    PagedDone(lines, pages, footers, total, tail);
  }

  /** The loop's invariant: the pages so far are the listing's first pages,
      each with its footer, and the last of them is not empty. */
  ghost predicate PagedSoFar(lines: seq<Line>, pages: seq<seq<Line>>, footers: seq<string>, total: int, tail: string) {
    && (|pages| > 0 ==> PageSize * (|pages| - 1) < |lines|)
    && |footers| == |pages|
    && (forall k :: 0 <= k < |pages| ==> PageSize * k <= |lines| && pages[k] == PageAt(lines, k))
    && (forall k :: 0 <= k < |footers| ==> footers[k] == Footer(k + 1, total, tail))
  }

  lemma PagedStep(lines: seq<Line>, pages: seq<seq<Line>>, footers: seq<string>, total: int, tail: string)
    requires PagedSoFar(lines, pages, footers, total, tail) && PageSize * |pages| < |lines|
    ensures PagedSoFar(lines, pages + [PageAt(lines, |pages|)], footers + [Footer(|pages| + 1, total, tail)], total, tail)
  {
    PagesStep(lines, pages, PageAt(lines, |pages|));
    FootersStep(footers, Footer(|pages| + 1, total, tail), total, tail);
  }

  lemma PagedDone(lines: seq<Line>, pages: seq<seq<Line>>, footers: seq<string>, total: int, tail: string)
    requires PagedSoFar(lines, pages, footers, total, tail) && |lines| <= PageSize * |pages|
    requires total == PageTotal(|lines|)
    ensures IsPaging(lines, pages)
    ensures |footers| == |pages|
    ensures forall k :: 0 <= k < |pages| ==> footers[k] == Footer(k + 1, PageTotal(|lines|), tail)
  {
    PageCountOf(|lines|, |pages|);
  }

  /** Appending the next page keeps the pages so far the listing's first
      pages. */
  lemma PagesStep(lines: seq<Line>, pages: seq<seq<Line>>, page: seq<Line>)
    requires PageSize * |pages| < |lines|
    requires forall k :: 0 <= k < |pages| ==> PageSize * k <= |lines| && pages[k] == PageAt(lines, k)
    requires page == PageAt(lines, |pages|)
    ensures forall k :: 0 <= k < |pages + [page]| ==>
      PageSize * k <= |lines| && (pages + [page])[k] == PageAt(lines, k)
  {
    forall k | 0 <= k < |pages + [page]|
      ensures PageSize * k <= |lines| && (pages + [page])[k] == PageAt(lines, k)
    {
      if k < |pages| {
        assert (pages + [page])[k] == pages[k];
      } else {
        assert (pages + [page])[k] == page;
      }
    }
  }

  lemma FootersStep(footers: seq<string>, footer: string, total: int, tail: string)
    requires forall k :: 0 <= k < |footers| ==> footers[k] == Footer(k + 1, total, tail)
    requires footer == Footer(|footers| + 1, total, tail)
    ensures forall k :: 0 <= k < |footers + [footer]| ==> (footers + [footer])[k] == Footer(k + 1, total, tail)
  {
    forall k | 0 <= k < |footers + [footer]|
      ensures (footers + [footer])[k] == Footer(k + 1, total, tail)
    {
      if k < |footers| {
        assert (footers + [footer])[k] == footers[k];
      }
    }
  }

  /** The page number the footer shows, `i // 5 + 1`, for the page that
      starts at line `i`. */
  lemma PageNumber(i: int, m: nat)
    requires i == PageSize * m
    ensures i / 5 + 1 == m + 1
  {
  }

  lemma PageCountOf(n: nat, m: nat)
    requires n <= PageSize * m
    requires m > 0 ==> PageSize * (m - 1) < n
    ensures (n + PageSize - 1) / PageSize == m
  {
  }

  /** Every page holds one to five lines, and the pages laid end to end give
      back the whole listing in order. */
  lemma {:induction false} PagingCovers(lines: seq<Line>, pages: seq<seq<Line>>)
    requires IsPaging(lines, pages)
    ensures forall k :: 0 <= k < |pages| ==> 1 <= |pages[k]| <= PageSize
    ensures Flatten(pages) == lines
    decreases |lines|
  {
    if |lines| <= PageSize {
      if lines != [] {
        assert |pages| == 1 && pages[0] == lines;
        assert Flatten(pages) == pages[0] + Flatten([]);
      }
    } else {
      var rest := lines[PageSize..];
      var tailPages := pages[1..];
      assert IsPaging(rest, tailPages) by {
        forall k | 0 <= k < |tailPages|
          ensures PageSize * k <= |rest| && tailPages[k] == PageAt(rest, k)
        {
          assert tailPages[k] == pages[k + 1];
          assert PageSize * (k + 1) <= |lines|;
        }
      }
      PagingCovers(rest, tailPages);
      assert pages[0] == lines[..PageSize];
      assert pages == [pages[0]] + tailPages;
      FlattenCons(pages[0], tailPages);
      assert lines == lines[..PageSize] + rest;
    }
  }

  function Flatten(pages: seq<seq<Line>>): seq<Line> {
    if pages == [] then [] else pages[0] + Flatten(pages[1..])
  }

  lemma FlattenCons(p: seq<Line>, ps: seq<seq<Line>>)
    ensures Flatten([p] + ps) == p + Flatten(ps)
  {
    assert ([p] + ps)[1..] == ps;
  }

  /** For a non-empty listing the footer's page total is the number of
      pages. */
  lemma PageTotalIsPageCount(n: nat)
    requires n > 0
    ensures PageTotal(n) == (n + PageSize - 1) / PageSize
  {
  }

  // ---------------------------------------------------------------------
  // The paginator
  // ---------------------------------------------------------------------

  /** What a button press does: refuses a user who is not the author,
      shows the new page with its footer, or does nothing at either end. */
  datatype Nav = NotAuthor | Shown(page: seq<Line>, footer: string) | Unchanged

  /** `WaypointPaginator`: the pages, their footers, who may press the
      buttons, and the page on show. */
  class Paginator {
    const pages: seq<seq<Line>>
    const footers: seq<string>
    const author: int
    var current: int

    ghost predicate Valid()
      reads this
    {
      |footers| == |pages| && 0 <= current && (current < |pages| || current == 0)
    }

    constructor (pages: seq<seq<Line>>, author: int, footers: seq<string>)
      requires |footers| == |pages|
      ensures Valid()
      ensures this.pages == pages && this.footers == footers && this.author == author && current == 0
    {
      this.pages := pages;
      this.footers := footers;
      this.author := author;
      current := 0;
    }

    /** "◀️ Prev" */
    method Prev(user: int) returns (r: Nav)
      requires Valid()
      modifies this
      ensures Valid()
      ensures user != author ==> r == NotAuthor && current == old(current)
      ensures user == author && old(current) > 0 ==>
                current == old(current) - 1 && r == Shown(pages[current], footers[current])
      ensures user == author && old(current) == 0 ==> r == Unchanged && current == 0
    {
      if user != author {
        return NotAuthor;
      }
      if current > 0 {
        current := current - 1;
        return Shown(pages[current], footers[current]);
      }
      r := Unchanged;
    }

    /** "Next ▶️" */
    method Next(user: int) returns (r: Nav)
      requires Valid()
      modifies this
      ensures Valid()
      ensures user != author ==> r == NotAuthor && current == old(current)
      ensures user == author && old(current) < |pages| - 1 ==>
                current == old(current) + 1 && r == Shown(pages[current], footers[current])
      ensures user == author && old(current) >= |pages| - 1 ==> r == Unchanged && current == old(current)
    {
      if user != author {
        return NotAuthor;
      }
      if current < |pages| - 1 {
        current := current + 1;
        return Shown(pages[current], footers[current]);
      }
      r := Unchanged;
    }
  }

  // ---------------------------------------------------------------------
  // The registry and its commands
  // ---------------------------------------------------------------------

  /** The replies `!waypointremove` / `/waypointremove` refuse with. */
  datatype RemoveError = RemoveUsage | NoSuchWaypoint(key: string) | NotCreator

  /** The replies `!waypointinfo` / `/waypointinfo` refuse with. */
  datatype InfoError = InfoUsage | NoWaypointNamed(key: string)

  /** `all_waypoints.setdefault(guild, {})`, as a value. */
  function TableOf(guilds: map<string, Table>, guild: string): Table {
    if guild in guilds then guilds[guild] else []
  }

  /** The bot's `all_waypoints` document, and the snapshot last written to
      disk by `save_json`. */
  class WaypointRegistry {
    var guilds: map<string, Table>
    var saved: map<string, Table>

    ghost predicate Valid()
      reads this
    {
      forall g :: g in guilds ==> UniqueKeys(guilds[g])
    }

    constructor (loaded: map<string, Table>)
      requires forall g :: g in loaded ==> UniqueKeys(loaded[g])
      ensures Valid() && guilds == loaded && saved == loaded
    {
      guilds := loaded;
      saved := loaded;
    }

    /** Inserts `key` unless it is taken; the guild's table is created if it
        was missing, and saved only when something was inserted. */
    method Insert(guild: string, key: string, w: Waypoint) returns (inserted: bool)
      requires Valid()
      modifies this
      ensures Valid()
      ensures var t := TableOf(old(guilds), guild);
        && inserted == Find(t, key).None?
        && (inserted ==> guilds == old(guilds)[guild := t + [Entry(key, w)]] && saved == guilds)
        && (!inserted ==> guilds == old(guilds)[guild := t] && saved == old(saved))
    {
      var wps := TableOf(guilds, guild);
      if Find(wps, key).Some? {
        guilds := guilds[guild := wps];
        return false;
      }
      UniqueKeysAfterAppend(wps, Entry(key, w));
      guilds := guilds[guild := wps + [Entry(key, w)]];
      saved := guilds;
      inserted := true;
    }

    /** `!waypointadd <args>` */
    method Add(guild: string, args: seq<string>, author: int, now: string)
      returns (r: Result<(string, Coords), AddError>)
      requires Valid()
      modifies this
      ensures Valid()
      ensures var t := TableOf(old(guilds), guild);
        match ParseAdd(args)
        case Err(e) => r == Err(e) && guilds == old(guilds)[guild := t] && saved == old(saved)
        case Ok((c, key)) =>
          if Find(t, key).Some? then
            r == Err(AlreadyExists(key)) && guilds == old(guilds)[guild := t] && saved == old(saved)
          else
            && r == Ok((key, c))
            && guilds == old(guilds)[guild := t + [Entry(key, Waypoint(c.x, c.y, c.z, author, now))]]
            && saved == guilds
    {
      match ParseAdd(args) {
        case Err(e) =>
          guilds := guilds[guild := TableOf(guilds, guild)];
          r := Err(e);
        case Ok((c, key)) =>
          var inserted := Insert(guild, key, Waypoint(c.x, c.y, c.z, author, now));
          r := if inserted then Ok((key, c)) else Err(AlreadyExists(key));
      }
    }

    /** `/waypointadd x z name [y]`: the key is the name lower-cased. */
    method AddSlash(guild: string, x: int, z: int, name: string, y: Option<int>, author: int, now: string)
      returns (r: Result<(string, Coords), AddError>)
      requires Valid()
      modifies this
      ensures Valid()
      ensures var t := TableOf(old(guilds), guild);
        var key := Lower(name);
        if Find(t, key).Some? then
          r == Err(AlreadyExists(key)) && guilds == old(guilds)[guild := t] && saved == old(saved)
        else
          && r == Ok((key, Coords(x, y, z)))
          && guilds == old(guilds)[guild := t + [Entry(key, Waypoint(x, y, z, author, now))]]
          && saved == guilds
    {
      var key := Lower(name);
      var inserted := Insert(guild, key, Waypoint(x, y, z, author, now));
      if !inserted {
        return Err(AlreadyExists(key));
      }
      r := Ok((key, Coords(x, y, z)));
    }

    /** Deletes `key` when it is present and the caller created it or is an
        administrator; otherwise only the (possibly new, empty) table is
        left in place, unsaved. */
    method Delete(guild: string, key: string, caller: int, isAdmin: bool) returns (r: Result<string, RemoveError>)
      requires Valid()
      modifies this
      ensures Valid()
      ensures var t := TableOf(old(guilds), guild);
        match Find(t, key)
        case None => r == Err(NoSuchWaypoint(key)) && guilds == old(guilds)[guild := t] && saved == old(saved)
        case Some(w) =>
          if w.addedBy != caller && !isAdmin then
            r == Err(NotCreator) && guilds == old(guilds)[guild := t] && saved == old(saved)
          else
            r == Ok(key) && guilds == old(guilds)[guild := RemoveKey(t, key)] && saved == guilds
    {
      var wps := TableOf(guilds, guild);
      guilds := guilds[guild := wps];
      var rec := Find(wps, key);
      if rec.None? {
        return Err(NoSuchWaypoint(key));
      }
      if caller != rec.value.addedBy && !isAdmin {
        return Err(NotCreator);
      }
      RemoveKeyKeepsUnique(wps, key);
      guilds := guilds[guild := RemoveKey(wps, key)];
      saved := guilds;
      r := Ok(key);
    }

    /** `!waypointremove <name…>` */
    method Remove(guild: string, args: seq<string>, caller: int, isAdmin: bool) returns (r: Result<string, RemoveError>)
      requires Valid()
      modifies this
      ensures Valid()
      ensures var t := TableOf(old(guilds), guild);
        var key := NameKey(args);
        if args == [] then r == Err(RemoveUsage) && guilds == old(guilds)[guild := t] && saved == old(saved)
        else match Find(t, key)
          case None => r == Err(NoSuchWaypoint(key)) && guilds == old(guilds)[guild := t] && saved == old(saved)
          case Some(w) =>
            if w.addedBy != caller && !isAdmin then
              r == Err(NotCreator) && guilds == old(guilds)[guild := t] && saved == old(saved)
            else
              r == Ok(key) && guilds == old(guilds)[guild := RemoveKey(t, key)] && saved == guilds
    {
      if args == [] {
        var wps := TableOf(guilds, guild);
        guilds := guilds[guild := wps];
        return Err(RemoveUsage);
      }
      r := Delete(guild, NameKey(args), caller, isAdmin);
    }

    /** `/waypointremove name` */
    method RemoveSlash(guild: string, name: string, caller: int, isAdmin: bool) returns (r: Result<string, RemoveError>)
      requires Valid()
      modifies this
      ensures Valid()
      ensures var t := TableOf(old(guilds), guild);
        var key := Lower(name);
        match Find(t, key)
        case None => r == Err(NoSuchWaypoint(key)) && guilds == old(guilds)[guild := t] && saved == old(saved)
        case Some(w) =>
          if w.addedBy != caller && !isAdmin then
            r == Err(NotCreator) && guilds == old(guilds)[guild := t] && saved == old(saved)
          else
            r == Ok(key) && guilds == old(guilds)[guild := RemoveKey(t, key)] && saved == guilds
    {
      r := Delete(guild, Lower(name), caller, isAdmin);
    }

    /** `!waypointinfo <name…>` and `/waypointinfo name`: a lookup by the
        lower-cased key. */
    method Info(guild: string, args: seq<string>) returns (r: Result<(string, Waypoint), InfoError>)
      requires Valid()
      modifies this
      ensures Valid()
      ensures var t := TableOf(old(guilds), guild);
        && guilds == old(guilds)[guild := t] && saved == old(saved)
        && (args == [] ==> r == Err(InfoUsage))
        && (args != [] ==> match Find(t, NameKey(args))
                          case None => r == Err(NoWaypointNamed(NameKey(args)))
                          case Some(w) => r == Ok((NameKey(args), w)))
    {
      var wps := TableOf(guilds, guild);
      guilds := guilds[guild := wps];
      if args == [] {
        return Err(InfoUsage);
      }
      var name := NameKey(args);
      var rec := Find(wps, name);
      if rec.None? {
        return Err(NoWaypointNamed(name));
      }
      r := Ok((name, rec.value));
    }

    method InfoSlash(guild: string, name: string) returns (r: Result<(string, Waypoint), InfoError>)
      requires Valid()
      modifies this
      ensures Valid()
      ensures var t := TableOf(old(guilds), guild);
        && guilds == old(guilds)[guild := t] && saved == old(saved)
        && match Find(t, Lower(name))
           case None => r == Err(NoWaypointNamed(Lower(name)))
           case Some(w) => r == Ok((Lower(name), w))
    {
      var wps := TableOf(guilds, guild);
      guilds := guilds[guild := wps];
      var key := Lower(name);
      var rec := Find(wps, key);
      if rec.None? {
        return Err(NoWaypointNamed(key));
      }
      r := Ok((key, rec.value));
    }

    /** `!waypoints` and `/waypoints`: nothing when the guild has no
        waypoint, otherwise a paginator over pages of five lines, opened on
        the first page, that only the requester may turn. */
    method List(guild: string, requester: int, requesterName: string, slash: bool) returns (p: Paginator?)
      requires Valid()
      modifies this
      ensures Valid()
      ensures var t := TableOf(old(guilds), guild);
        && guilds == old(guilds)[guild := t] && saved == old(saved)
        && (t == [] <==> p == null)
        && (p != null ==>
              && fresh(p) && p.Valid() && p.current == 0 && p.author == requester
              && IsPaging(Listing(t), p.pages)
              && |Flatten(p.pages)| == |t|
              && (forall i :: 0 <= i < |t| ==> Flatten(p.pages)[i] == LineOf(t[i]))
              && (forall k :: 0 <= k < |p.pages| ==> 1 <= |p.pages[k]| <= PageSize)
              && (forall k :: 0 <= k < |p.pages| ==>
                    p.footers[k] == Footer(k + 1, |p.pages|, FooterTail(requesterName, slash))))
    {
      var wps := TableOf(guilds, guild);
      guilds := guilds[guild := wps];
      if wps == [] {
        return null;
      }
      var lines := ListLines(wps);
      var pages, footers := Paginate(lines, FooterTail(requesterName, slash));
      PagingCovers(lines, pages);
      PageTotalIsPageCount(|lines|);
      p := new Paginator(pages, requester, footers);
    }
  }

  /** Adding then looking up: the new key finds the new record and every
      other key finds what it found before. */
  lemma AddThenFind(t: Table, key: string, w: Waypoint, other: string)
    requires Find(t, key).None?
    ensures Find(t + [Entry(key, w)], key) == Some(w)
    ensures other != key ==> Find(t + [Entry(key, w)], other) == Find(t, other)
  {
    FindAfterAppend(t, Entry(key, w), key);
    FindAfterAppend(t, Entry(key, w), other);
  }

  /** Removing a present key of a dictionary: one entry fewer, that key
      gone, every other key unchanged. */
  lemma RemoveThenFind(t: Table, key: string, other: string)
    requires UniqueKeys(t) && Find(t, key).Some?
    ensures |RemoveKey(t, key)| == |t| - 1
    ensures Find(RemoveKey(t, key), key) == None
    ensures other != key ==> Find(RemoveKey(t, key), other) == Find(t, other)
  {
    RemoveKeyCount(t, key);
    FindAfterRemove(t, key, key);
    FindAfterRemove(t, key, other);
  }
}
