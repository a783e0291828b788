/** Category slugs: `_slugify` and the get-or-create of
    backend/app/api/v1/service_categories.py. */
module Slug {
  import opened Text

  predicate IsWordChar(c: char) {
    'a' <= c <= 'z' || '0' <= c <= '9'
  }

  predicate IsSeparator(c: char) {
    IsSpace(c) || c == '-'
  }

  predicate IsDash(c: char) {
    c == '-'
  }

  // ---- The pipeline, as written ----

  /** `re.sub(r"[^a-z0-9\s-]", "", s)` */
  function KeepAllowed(s: string): string {
    if s == "" then ""
    else if IsWordChar(s[0]) || IsSeparator(s[0]) then [s[0]] + KeepAllowed(s[1..])
    else KeepAllowed(s[1..])
  }

  /** `re.sub(r"[\s-]+", "-", s)` */
  function Collapse(s: string): string
    decreases |s|
  {
    if s == "" then ""
    else if IsSeparator(s[0]) then "-" + Collapse(TrimLeft(s[1..], IsSeparator))
    else [s[0]] + Collapse(s[1..])
  }

  function Slugify(name: string): string {
    Trim(Collapse(KeepAllowed(Strip(Lower(name)))), IsDash)
  }

  // ---- What it means ----

  /** The longest prefix without a separator. */
  function FirstRun(s: string): (w: string)
    ensures |w| <= |s| && s[..|w|] == w
    ensures forall c :: c in w ==> !IsSeparator(c)
    ensures |w| < |s| ==> IsSeparator(s[|w|])
  {
    if s == "" || IsSeparator(s[0]) then "" else [s[0]] + FirstRun(s[1..])
  }

  /** The nonempty pieces between separators. */
  function Pieces(s: string): seq<string>
    decreases |s|
  {
    if s == "" then []
    else if IsSeparator(s[0]) then Pieces(s[1..])
    else [FirstRun(s)] + Pieces(s[|FirstRun(s)|..])
  }

  function Join(ps: seq<string>): string {
    if ps == [] then "" else if |ps| == 1 then ps[0] else ps[0] + "-" + Join(ps[1..])
  }

  /** `s.split("-")` */
  function SplitDash(s: string): seq<string> {
    if s == "" then [""]
    else
      var rest := SplitDash(s[1..]);
      if s[0] == '-' then [""] + rest
      else if rest == [] then [[s[0]]] else [[s[0]] + rest[0]] + rest[1..]
  }

  predicate IsWord(w: string) {
    w != "" && forall c :: c in w ==> IsWordChar(c)
  }

  /** The pattern `^[a-z0-9]+(?:-[a-z0-9]+)*$` that business slugs must match. */
  predicate IsSlug(s: string)
    decreases |s|
  {
    var w := FirstRun(s);
    && IsWord(w)
    && (|w| < |s| ==> s[|w|] == '-' && IsSlug(s[|w| + 1..]))
  }

  // ---- The pipeline computes the pieces ----

  predicate AllAllowed(s: string) {
    forall c :: c in s ==> IsWordChar(c) || IsSeparator(c)
  }

  lemma {:induction false} KeptIsAllowed(s: string)
    ensures AllAllowed(KeepAllowed(s))
  {
    if s != "" { KeptIsAllowed(s[1..]); }
  }

  lemma {:induction false} TrimLeftStart(s: string, drop: char -> bool)
    ensures TrimLeft(s, drop) != "" ==> !drop(TrimLeft(s, drop)[0])
  {
    if s != "" && drop(s[0]) { TrimLeftStart(s[1..], drop); }
  }

  lemma {:induction false} PiecesSkipSeparators(s: string)
    ensures Pieces(TrimLeft(s, IsSeparator)) == Pieces(s)
  {
    if s != "" && IsSeparator(s[0]) { PiecesSkipSeparators(s[1..]); }
  }

  lemma {:induction false} TrimLeftOfCollapse(s: string)
    ensures TrimLeft(Collapse(s), IsDash) == Collapse(TrimLeft(s, IsSeparator))
  {
    if s != "" && IsSeparator(s[0]) {
      var u := TrimLeft(s[1..], IsSeparator);
      TrimLeftStart(s[1..], IsSeparator);
      assert ("-" + Collapse(u))[1..] == Collapse(u);
      assert u == "" || !IsDash(Collapse(u)[0]);
    }
  }

  lemma {:induction false} CollapseRun(w: string, rest: string)
    requires forall c :: c in w ==> !IsSeparator(c)
    ensures Collapse(w + rest) == w + Collapse(rest)
  {
    if w == "" {
      assert w + rest == rest;
    } else {
      assert (w + rest)[1..] == w[1..] + rest;
      CollapseRun(w[1..], rest);
      assert [w[0]] + (w[1..] + Collapse(rest)) == w + Collapse(rest);
    }
  }

  lemma {:induction false} TrimRightKeepsFront(front: string, x: string, drop: char -> bool)
    requires TrimRight(x, drop) != ""
    ensures TrimRight(front + x, drop) == front + TrimRight(x, drop)
  {
    var s := front + x;
    assert s[|s| - 1] == x[|x| - 1];
    if drop(x[|x| - 1]) {
      assert s[..|s| - 1] == front + x[..|x| - 1];
      TrimRightKeepsFront(front, x[..|x| - 1], drop);
    }
  }

  lemma {:induction false} JoinNonempty(ps: seq<string>)
    requires ps != [] && forall p :: p in ps ==> p != ""
    ensures Join(ps) != ""
  {
    assert ps[0] in ps;
  }

  lemma {:induction false} PiecesAreWords(s: string)
    requires AllAllowed(s)
    ensures forall p :: p in Pieces(s) ==> IsWord(p)
    ensures Pieces(s) == [] ==> forall c :: c in s ==> IsSeparator(c)
    decreases |s|
  {
    if s != "" {
      if IsSeparator(s[0]) {
        PiecesAreWords(s[1..]);
        assert forall c :: c in s ==> c == s[0] || c in s[1..];
      } else {
        var w := FirstRun(s);
        assert forall c :: c in w ==> c in s;
        PiecesAreWords(s[|w|..]);
      }
    }
  }

  lemma {:induction false} TrimRightOfCollapse(t: string)
    requires AllAllowed(t) && (t != "" ==> !IsSeparator(t[0]))
    ensures TrimRight(Collapse(t), IsDash) == Join(Pieces(t))
    decreases |t|
  {
    if t != "" {
      var w := FirstRun(t);
      var rest := t[|w|..];
      assert t == w + rest && w != "";
      CollapseRun(w, rest);
      if rest == "" {
        assert w + Collapse(rest) == w;
        assert w[|w| - 1] in w;
        assert Pieces(t) == [w] + Pieces(rest) == [w];
      } else {
        var u := TrimLeft(rest[1..], IsSeparator);
        TrimLeftStart(rest[1..], IsSeparator);
        TrimKeepsAllowed(rest[1..]);
        TrimRightOfCollapse(u);
        PiecesSkipSeparators(rest[1..]);
        assert Pieces(t) == [w] + Pieces(u);
        TrimTail(w, u);
      }
    }
  }

  lemma {:induction false} TrimKeepsAllowed(s: string)
    requires AllAllowed(s)
    ensures AllAllowed(TrimLeft(s, IsSeparator))
  {
    if s != "" && IsSeparator(s[0]) { TrimKeepsAllowed(s[1..]); }
  }

  /** The end of a collapsed string: a word, one dash, and what follows it. */
  lemma TrimTail(w: string, u: string)
    requires w != "" && forall c :: c in w ==> !IsSeparator(c)
    requires AllAllowed(u) && (u != "" ==> !IsSeparator(u[0]))
    requires TrimRight(Collapse(u), IsDash) == Join(Pieces(u))
    ensures TrimRight(w + ("-" + Collapse(u)), IsDash) == Join([w] + Pieces(u))
  {
    assert w[|w| - 1] in w;
    if u == "" {
      assert w + ("-" + Collapse(u)) == w + "-";
      TrimLastDash(w);
      assert [w] + Pieces(u) == [w];
    } else {
      PiecesAreWords(u);
      assert u[0] in u && !IsSeparator(u[0]);
      JoinNonempty(Pieces(u));
      TrimTailWord(w, Collapse(u), Pieces(u));
    }
  }

  lemma TrimTailWord(w: string, x: string, ps: seq<string>)
    requires ps != [] && Join(ps) != "" && TrimRight(x, IsDash) == Join(ps)
    ensures TrimRight(w + ("-" + x), IsDash) == Join([w] + ps)
  {
    TrimRightKeepsFront(w + "-", x, IsDash);
    assert w + ("-" + x) == (w + "-") + x;
    JoinCons(w, ps);
  }

  lemma TrimLastDash(w: string)
    requires w != "" && !IsDash(w[|w| - 1])
    ensures TrimRight(w + "-", IsDash) == w
  {
    assert (w + "-")[..|w|] == w;
  }

  lemma JoinCons(w: string, ps: seq<string>)
    requires ps != []
    ensures Join([w] + ps) == w + "-" + Join(ps)
  {
    assert ([w] + ps)[1..] == ps;
  }

  lemma CollapseComputesPieces(s: string)
    requires AllAllowed(s)
    ensures Trim(Collapse(s), IsDash) == Join(Pieces(s))
  {
    var t := TrimLeft(s, IsSeparator);
    TrimLeftOfCollapse(s);
    TrimLeftStart(s, IsSeparator);
    TrimKeepsAllowed(s);
    TrimRightOfCollapse(t);
    PiecesSkipSeparators(s);
  }

  // ---- Stripping first makes no difference ----

  lemma {:induction false} KeepConcat(a: string, b: string)
    ensures KeepAllowed(a + b) == KeepAllowed(a) + KeepAllowed(b)
  {
    if a == "" {
      assert a + b == b;
    } else {
      assert (a + b)[1..] == a[1..] + b;
      KeepConcat(a[1..], b);
    }
  }

  lemma {:induction false} PiecesDropLast(s: string, c: char)
    requires IsSeparator(c)
    ensures Pieces(s + [c]) == Pieces(s)
    decreases |s|
  {
    if s == "" {
      assert s + [c] == [c] && [c][1..] == "";
    } else if IsSeparator(s[0]) {
      assert (s + [c])[1..] == s[1..] + [c];
      PiecesDropLast(s[1..], c);
    } else {
      var w := FirstRun(s);
      RunThenSeparator(s, c);
      assert (s + [c])[|w|..] == s[|w|..] + [c];
      PiecesDropLast(s[|w|..], c);
    }
  }

  lemma {:induction false} RunThenSeparator(s: string, c: char)
    requires IsSeparator(c)
    ensures FirstRun(s + [c]) == FirstRun(s)
  {
    if s != "" && !IsSeparator(s[0]) {
      assert (s + [c])[1..] == s[1..] + [c];
      RunThenSeparator(s[1..], c);
    }
  }

  lemma {:induction false} StripLeftIsFree(s: string)
    ensures Pieces(KeepAllowed(TrimLeft(s, IsSpace))) == Pieces(KeepAllowed(s))
  {
    if s != "" && IsSpace(s[0]) {
      StripLeftIsFree(s[1..]);
      assert KeepAllowed(s) == [s[0]] + KeepAllowed(s[1..]);
      assert KeepAllowed(s)[1..] == KeepAllowed(s[1..]);
    }
  }

  lemma {:induction false} StripRightIsFree(s: string)
    ensures Pieces(KeepAllowed(TrimRight(s, IsSpace))) == Pieces(KeepAllowed(s))
  {
    if s != "" && IsSpace(s[|s| - 1]) {
      var init, c := s[..|s| - 1], s[|s| - 1];
      StripRightIsFree(init);
      assert s == init + [c];
      KeepConcat(init, [c]);
      assert [c][1..] == "";
      assert KeepAllowed([c]) == [c];
      PiecesDropLast(KeepAllowed(init), c);
    }
  }

  // ---- Main results ----

  /** The pieces a name is made of. */
  function PiecesOf(name: string): seq<string> {
    Pieces(KeepAllowed(Lower(name)))
  }

  /** The pipeline joins with dashes the nonempty pieces of the lowered, filtered name. */
  lemma SlugifyJoinsPieces(name: string)
    ensures Slugify(name) == Join(PiecesOf(name))
    ensures forall p :: p in PiecesOf(name) ==> IsWord(p)
  {
    var low := Lower(name);
    KeptIsAllowed(Strip(low));
    CollapseComputesPieces(KeepAllowed(Strip(low)));
    StripRightIsFree(TrimLeft(low, IsSpace));
    StripLeftIsFree(low);
    KeptIsAllowed(low);
    PiecesAreWords(KeepAllowed(low));
  }

  lemma {:induction false} RunOfWord(w: string, rest: string)
    requires forall c :: c in w ==> IsWordChar(c)
    requires rest != "" ==> IsSeparator(rest[0])
    ensures FirstRun(w + rest) == w
  {
    if w == "" {
      assert w + rest == rest;
    } else {
      assert (w + rest)[1..] == w[1..] + rest;
      assert w[0] in w && !IsSeparator(w[0]);
      RunOfWord(w[1..], rest);
    }
  }

  lemma {:induction false} JoinIsSlug(ps: seq<string>)
    requires ps != [] && forall p :: p in ps ==> IsWord(p)
    ensures IsSlug(Join(ps))
  {
    assert ps[0] in ps;
    if |ps| == 1 {
      assert ps[0] + "" == ps[0];
      RunOfWord(ps[0], "");
    } else {
      var rest := "-" + Join(ps[1..]);
      assert Join(ps) == ps[0] + rest;
      RunOfWord(ps[0], rest);
      assert Join(ps)[|ps[0]| + 1..] == Join(ps[1..]);
      JoinIsSlug(ps[1..]);
    }
  }

  lemma RunIsFirstPiece(s: string)
    requires FirstRun(s) != ""
    ensures Pieces(s) == [FirstRun(s)] + Pieces(s[|FirstRun(s)|..])
  {
  }

  lemma {:induction false} SlugIsJoined(s: string)
    requires IsSlug(s)
    ensures Join(Pieces(s)) == s && Pieces(s) != []
    ensures forall c :: c in s ==> IsWordChar(c) || c == '-'
    decreases |s|
  {
    var w := FirstRun(s);
    assert w[0] in w && s[0] == w[0];
    var rest := s[|w|..];
    assert s == w + rest;
    RunIsFirstPiece(s);
    if rest != "" {
      var tail := rest[1..];
      assert tail == s[|w| + 1..] && rest == "-" + tail;
      SlugIsJoined(tail);
      assert Pieces(rest) == Pieces(tail);
      JoinCons(w, Pieces(tail));
      assert s == w + "-" + tail;
    }
  }

  lemma {:induction false} LowerIsIdentity(s: string)
    requires forall c :: c in s ==> IsWordChar(c) || c == '-'
    ensures Lower(s) == s && KeepAllowed(s) == s
  {
    if s != "" {
      assert s[0] in s;
      LowerIsIdentity(s[1..]);
    }
  }

  /** The grammar's strings are exactly the nonempty fixed points. */
  lemma SlugsAreFixedPoints(s: string)
    ensures IsSlug(s) <==> s != "" && Slugify(s) == s
  {
    SlugifyJoinsPieces(s);
    if IsSlug(s) {
      SlugIsJoined(s);
      LowerIsIdentity(s);
    }
    if s != "" && Slugify(s) == s {
      JoinIsSlug(PiecesOf(s));
    }
  }

  /** Every nonempty slug lies in the grammar, and slugging again changes nothing. */
  lemma SlugifyIsIdempotent(name: string)
    ensures Slugify(name) != "" ==> IsSlug(Slugify(name))
    ensures Slugify(Slugify(name)) == Slugify(name)
  {
    SlugifyJoinsPieces(name);
    if Slugify(name) == "" {
      assert Slugify("") == "";
    } else {
      JoinIsSlug(PiecesOf(name));
      SlugsAreFixedPoints(Slugify(name));
    }
  }

  lemma {:induction false} SplitWord(w: string, rest: string)
    requires forall c :: c in w ==> c != '-'
    ensures SplitDash(w + "-" + rest) == [w] + SplitDash(rest)
  {
    if w == "" {
      assert w + "-" + rest == "-" + rest && ("-" + rest)[1..] == rest;
    } else {
      assert (w + "-" + rest)[1..] == w[1..] + "-" + rest;
      assert w[0] in w && forall c :: c in w[1..] ==> c in w;
      SplitWord(w[1..], rest);
      assert [w[0]] + w[1..] == w;
      assert [w[1..]] + SplitDash(rest) != [] && ([w[1..]] + SplitDash(rest))[1..] == SplitDash(rest);
    }
  }

  lemma {:induction false} SplitLastWord(w: string)
    requires forall c :: c in w ==> c != '-'
    ensures SplitDash(w) == [w]
  {
    if w != "" {
      assert w[0] in w && forall c :: c in w[1..] ==> c in w;
      SplitLastWord(w[1..]);
      assert [w[0]] + w[1..] == w;
    }
  }

  lemma {:induction false} SplitUndoesJoin(ps: seq<string>)
    requires ps != [] && forall p :: p in ps ==> IsWord(p)
    ensures SplitDash(Join(ps)) == ps
  {
    assert ps[0] in ps;
    if |ps| == 1 {
      SplitLastWord(ps[0]);
    } else {
      SplitUndoesJoin(ps[1..]);
      SplitWord(ps[0], Join(ps[1..]));
    }
  }

  /** Splitting a nonempty slug at its dashes gives back the pieces of the name. */
  lemma SplittingRecoversPieces(name: string)
    requires Slugify(name) != ""
    ensures SplitDash(Slugify(name)) == PiecesOf(name)
  {
    SlugifyJoinsPieces(name);
    SplitUndoesJoin(PiecesOf(name));
  }

  lemma {:induction false} KeepsWordChars(s: string, c: char)
    requires IsWordChar(c)
    ensures c in KeepAllowed(s) <==> c in s
  {
    if s != "" { KeepsWordChars(s[1..], c); }
  }

  lemma {:induction false} WordCharMakesPiece(s: string, c: char)
    requires c in s && IsWordChar(c)
    ensures Pieces(s) != []
    decreases |s|
  {
    if IsSeparator(s[0]) {
      assert c in s[1..];
      WordCharMakesPiece(s[1..], c);
    }
  }

  /** A slug is empty exactly when no letter or digit of a-z0-9 survives lowercasing. */
  lemma EmptySlug(name: string)
    ensures Slugify(name) == "" <==> forall c :: c in Lower(name) ==> !IsWordChar(c)
  {
    SlugifyJoinsPieces(name);
    var kept := KeepAllowed(Lower(name));
    if c :| c in Lower(name) && IsWordChar(c) {
      KeepsWordChars(Lower(name), c);
      WordCharMakesPiece(kept, c);
      JoinNonempty(PiecesOf(name));
    }
    if PiecesOf(name) != [] {
      var p := PiecesOf(name)[0];
      assert p in PiecesOf(name) && IsWord(p);
      PieceComesFrom(kept, p[0]);
      KeepsWordChars(Lower(name), p[0]);
      assert p[0] in Lower(name);
    }
  }

  lemma {:induction false} PieceComesFrom(s: string, c: char)
    requires Pieces(s) != [] && Pieces(s)[0] != "" && c == Pieces(s)[0][0]
    ensures c in s
    decreases |s|
  {
    if IsSeparator(s[0]) { PieceComesFrom(s[1..], c); }
  }

  // ---- Get or create ----

  datatype Category = Category(name: string, slug: string, deleted: bool)

  datatype Reply = Created(id: nat) | Existing(id: nat) | NoSlug | Integrity

  /** `get_by_slug`: the live row with this slug, -1 when there is none. */
  function LiveWithSlug(rows: seq<Category>, slug: string): (i: int)
    ensures -1 <= i < |rows|
    ensures i >= 0 ==> rows[i].slug == slug && !rows[i].deleted
    ensures i < 0 ==> forall j :: 0 <= j < |rows| && rows[j].slug == slug ==> rows[j].deleted
  {
    if rows == [] then -1
    else if rows[|rows| - 1].slug == slug && !rows[|rows| - 1].deleted then |rows| - 1
    else LiveWithSlug(rows[..|rows| - 1], slug)
  }

  /** Some row, deleted or not, stands in the way of the unique columns. */
  predicate IsTaken(rows: seq<Category>, name: string, slug: string) {
    exists i :: 0 <= i < |rows| && (rows[i].slug == slug || rows[i].name == name)
  }

  class CategoryApi {
    var rows: seq<Category>

    /** Both columns are unique in the database, deleted rows included. */
    ghost predicate Valid()
      reads this
    {
      forall i, j :: 0 <= i < j < |rows| ==> rows[i].slug != rows[j].slug && rows[i].name != rows[j].name
    }

    constructor ()
      ensures Valid() && rows == []
    {
      rows := [];
    }

    /** The caller gets the one live category with the name's slug, whoever created it. A name or
        slug that only a deleted row has, or a name stored under another slug, is refused. */
    method CreateCategory(name: string) returns (r: Reply)
      requires Valid()
      modifies this
      ensures Valid() && old(rows) <= rows
      ensures r.NoSlug? <==> forall c :: c in Lower(name) ==> !IsWordChar(c)
      ensures r.Created? || r.Existing? ==>
                && r.id < |rows| && rows[r.id].slug == Slugify(name) && !rows[r.id].deleted && IsSlug(rows[r.id].slug)
      ensures r.Existing? <==>
                && Slugify(name) != ""
                && exists i :: 0 <= i < |old(rows)| && old(rows)[i].slug == Slugify(name) && !old(rows)[i].deleted
      ensures r.Integrity? <==>
                && Slugify(name) != "" && !r.Existing?
                && exists i :: 0 <= i < |old(rows)| && (old(rows)[i].slug == Slugify(name) || old(rows)[i].name == name)
      ensures rows == if r.Created? then old(rows) + [Category(name, Slugify(name), false)] else old(rows)
    {
      EmptySlug(name);
      SlugifyIsIdempotent(name);
      var slug := Slugify(name);
      if slug == "" { return NoSlug; }
      var existing := LiveWithSlug(rows, slug);
      if existing >= 0 { return Existing(existing); }
      if IsTaken(rows, name, slug) { return Integrity; }
      rows := rows + [Category(name, slug, false)];
      return Created(|rows| - 1);
    }
  }
}
