/** Name replacement in prompt text, and the parts of a request that identify a conversation. */
module Requests {
  import opened Sequences

  const CODEX := "Codex"
  const NAMES: seq<string> := ["Zed", "Cline", "Roo", "GitHub Copilot", "Copilot", "Cursor", "Microsoft", "Copilot"]

  ghost predicate OccursAt(name: string, s: string, i: nat) {
    i + |name| <= |s| && s[i..i + |name|] == name
  }

  ghost predicate Occurs(name: string, s: string) {
    exists i: nat :: OccursAt(name, s, i)
  }

  /** `str::replace`: matches from the left, without overlap. */
  function Replace(s: string, name: string, put: string): string
    requires name != ""
  {
    if |s| < |name| then s
    else if name <= s then put + Replace(s[|name|..], name, put)
    else [s[0]] + Replace(s[1..], name, put)
  }

  /** All replacements, in list order. */
  function ReplaceEach(s: string, names: seq<string>): string
    requires forall k :: 0 <= k < |names| ==> names[k] != ""
  {
    if names == [] then s else Replace(ReplaceEach(s, Init(names)), Last(names), CODEX)
  }

  method ReplaceNames(input: string) returns (out: string)
    ensures out == ReplaceEach(input, NAMES)
  {
    out := input;
    for i := 0 to |NAMES|
      invariant out == ReplaceEach(input, NAMES[..i])
    {
      assert Init(NAMES[..i + 1]) == NAMES[..i];
      out := Replace(out, NAMES[i], CODEX);
    }
    assert NAMES[..|NAMES|] == NAMES;
  }

  // ---- what replacement does to the text ----------------------------------------------

  /** The text between the matches. */
  function Pieces(s: string, name: string): (r: seq<string>)
    requires name != ""
    ensures r != []
  {
    if |s| < |name| then [s]
    else if name <= s then [""] + Pieces(s[|name|..], name)
    else
      var rest := Pieces(s[1..], name);
      [[s[0]] + rest[0]] + rest[1..]
  }

  function Weave(pieces: seq<string>, glue: string): string
    requires pieces != []
  {
    if |pieces| == 1 then pieces[0] else pieces[0] + glue + Weave(pieces[1..], glue)
  }

  lemma WeaveFirst(c: char, pieces: seq<string>, glue: string)
    requires pieces != []
    ensures Weave([[c] + pieces[0]] + pieces[1..], glue) == [c] + Weave(pieces, glue)
  {
    var w := [[c] + pieces[0]] + pieces[1..];
    if |pieces| > 1 {
      assert w[1..] == pieces[1..];
      assert [c] + pieces[0] + glue + Weave(pieces[1..], glue) == [c] + (pieces[0] + glue + Weave(pieces[1..], glue));
    }
  }

  lemma WeaveMatch(pieces: seq<string>, glue: string)
    requires pieces != []
    ensures Weave([""] + pieces, glue) == glue + Weave(pieces, glue)
  {
    assert ([""] + pieces)[1..] == pieces;
    assert "" + glue + Weave(pieces, glue) == glue + Weave(pieces, glue);
  }

  /** Replacement keeps the text between the matches: the input is the pieces around the name,
      the output is the same pieces around its replacement. */
  lemma {:induction false} ReplaceIsReweave(s: string, name: string, put: string)
    requires name != ""
    ensures Weave(Pieces(s, name), name) == s
    ensures Weave(Pieces(s, name), put) == Replace(s, name, put)
  {
    if |s| >= |name| {
      hide Weave;
      if name <= s {
        var rest := Pieces(s[|name|..], name);
        ReplaceIsReweave(s[|name|..], name, put);
        WeaveMatch(rest, name);
        WeaveMatch(rest, put);
        assert s == name + s[|name|..];
      } else {
        assert s == [s[0]] + s[1..];
        ReplaceIsReweave(s[1..], name, put);
        WeaveFirst(s[0], Pieces(s[1..], name), name);
        WeaveFirst(s[0], Pieces(s[1..], name), put);
      }
    }
  }

  // ---- completeness ---------------------------------------------------------------------

  /** However `name` is laid over `put` so that they overlap, some position disagrees. */
  ghost predicate Detached(name: string, put: string) {
    forall d: int :: -|name| < d < |put| ==> Clash(name, put, d)
  }

  /** With `name` starting at position `d` of `put`, the two differ somewhere. */
  ghost predicate Clash(name: string, put: string, d: int) {
    exists j :: 0 <= j < |name| && 0 <= j + d < |put| && name[j] != put[j + d]
  }

  lemma OverlapClashes(name: string, x: string, put: string, y: string, i: nat)
    requires |x| < i + |name| && i < |x| + |put| && Clash(name, put, i - |x|)
    ensures !OccursAt(name, x + put + y, i)
  {
    var j :| 0 <= j < |name| && 0 <= j + (i - |x|) < |put| && name[j] != put[j + (i - |x|)];
    var s := x + put + y;
    assert s[i + j] == put[j + (i - |x|)];
    assert i + |name| <= |s| ==> s[i..i + |name|][j] == s[i + j];
  }

  /** A detached name has no occurrence that touches an inserted replacement. */
  lemma OccurrencesAvoid(name: string, x: string, put: string, y: string, i: nat)
    requires Detached(name, put) && name != "" && i + |name| <= |x + put + y|
    ensures OccursAt(name, x + put + y, i) ==>
              OccursAt(name, x, i) || (i >= |x| + |put| && OccursAt(name, y, i - |x| - |put|))
  {
    var s := x + put + y;
    if i + |name| <= |x| {
      assert s[i..i + |name|] == x[i..i + |name|];
    } else if i >= |x| + |put| {
      var k := i - |x| - |put|;
      assert s[i..i + |name|] == y[k..k + |name|];
    } else {
      OverlapClashes(name, x, put, y, i);
    }
  }

  /** A detached name at the very front after replacement was there before. */
  lemma {:induction false} FrontIsOld(u: string, t: string, name: string, gone: string, put: string)
    requires gone != "" && put != "" && name != "" && Detached(name, put)
    requires OccursAt(name, u + Replace(t, gone, put), 0)
    ensures OccursAt(name, u + t, 0)
    decreases |t|
  {
    if |t| >= |gone| {
      if gone <= t {
        var rest := Replace(t[|gone|..], gone, put);
        assert u + Replace(t, gone, put) == u + put + rest;
        OccurrencesAvoid(name, u, put, rest, 0);
        assert (u + t)[0..|name|] == u[0..|name|];
      } else {
        assert u + Replace(t, gone, put) == (u + [t[0]]) + Replace(t[1..], gone, put);
        FrontIsOld(u + [t[0]], t[1..], name, gone, put);
        assert u + t == (u + [t[0]]) + t[1..];
      }
    }
  }

  lemma OccursLater(name: string, c: string, s: string, i: nat)
    requires OccursAt(name, s, i)
    ensures OccursAt(name, c + s, i + |c|) && Occurs(name, c + s)
  {
    var k: nat := i + |c|;
    assert (c + s)[k..k + |name|] == s[i..i + |name|];
    assert OccursAt(name, c + s, k);
  }

  /** Replacing any name brings no detached name in: an occurrence afterwards was there before,
      and it is not one of the name replaced. */
  lemma {:induction false} ReplaceBringsNothingIn(s: string, name: string, gone: string, put: string)
    requires gone != "" && put != "" && name != "" && Detached(name, put)
    requires Occurs(name, Replace(s, gone, put))
    ensures Occurs(name, s) && name != gone
    decreases |s|
  {
    var i: nat :| OccursAt(name, Replace(s, gone, put), i);
    if |s| < |gone| {
      assert |name| <= |s|;
    } else if gone <= s {
      var rest := Replace(s[|gone|..], gone, put);
      assert Replace(s, gone, put) == "" + put + rest;
      OccurrencesAvoid(name, "", put, rest, i);
      ReplaceBringsNothingIn(s[|gone|..], name, gone, put);
      var k: nat :| OccursAt(name, s[|gone|..], k);
      OccursLater(name, s[..|gone|], s[|gone|..], k);
      assert s[..|gone|] + s[|gone|..] == s;
    } else if i == 0 {
      assert "" + Replace(s, gone, put) == Replace(s, gone, put) && "" + s == s;
      FrontIsOld("", s, name, gone, put);
      assert s[0..|name|] == name;
    } else {
      var rest := Replace(s[1..], gone, put);
      assert Replace(s, gone, put)[i..i + |name|] == rest[i - 1..i - 1 + |name|];
      assert OccursAt(name, rest, i - 1);
      ReplaceBringsNothingIn(s[1..], name, gone, put);
      var k: nat :| OccursAt(name, s[1..], k);
      OccursLater(name, [s[0]], s[1..], k);
      assert [s[0]] + s[1..] == s;
    }
  }

  lemma {:induction false} NothingToReplace(s: string, name: string, put: string)
    requires name != "" && !Occurs(name, s)
    ensures Replace(s, name, put) == s
  {
    if |s| >= |name| {
      if name <= s {
        assert OccursAt(name, s, 0);
      } else {
        assert [s[0]] + s[1..] == s;
        if Occurs(name, s[1..]) {
          var k: nat :| OccursAt(name, s[1..], k);
          OccursLater(name, [s[0]], s[1..], k);
        }
        NothingToReplace(s[1..], name, put);
      }
    }
  }

  lemma {:induction false} EachIsGone(s: string, names: seq<string>, name: string)
    requires forall k :: 0 <= k < |names| ==> names[k] != ""
    requires forall n :: n in names ==> Detached(n, CODEX)
    requires name in names
    ensures !Occurs(name, ReplaceEach(s, names))
  {
    assert Last(names) in names && forall n :: n in Init(names) ==> n in names;
    var before := ReplaceEach(s, Init(names));
    if Occurs(name, ReplaceEach(s, names)) {
      ReplaceBringsNothingIn(before, name, Last(names), CODEX);
      EachIsGone(s, Init(names), name);
    }
  }

  lemma {:induction false} NoneToReplace(s: string, names: seq<string>)
    requires forall k :: 0 <= k < |names| ==> names[k] != "" && !Occurs(names[k], s)
    ensures ReplaceEach(s, names) == s
  {
    if names != [] {
      assert Last(names) in names && forall n :: n in Init(names) ==> n in names;
      NoneToReplace(s, Init(names));
      NothingToReplace(s, Last(names), CODEX);
    }
  }

  /** No listed name can be made, or touched, by inserting "Codex". */
  lemma NamesAreDetached(name: string)
    requires name in NAMES
    ensures Detached(name, CODEX)
  {
    forall d: int | -|name| < d < |CODEX|
      ensures Clash(name, CODEX, d)
    {
      if d > 0 {
        assert name[0] != CODEX[0 + d];
      } else if name[-d] != CODEX[0] {
        assert name[-d] != CODEX[-d + d];
      } else if name[-d + 1] != CODEX[1] {
        assert name[-d + 1] != CODEX[-d + 1 + d];
      } else {
        assert name[-d + 2] != CODEX[-d + 2 + d];
      }
    }
  }

  lemma NamesAreListed(name: string)
    ensures name in {"Zed", "Cline", "Roo", "GitHub Copilot", "Copilot", "Cursor", "Microsoft"} <==> name in NAMES
  {
    assert NAMES[0] == "Zed" && NAMES[1] == "Cline" && NAMES[2] == "Roo" && NAMES[3] == "GitHub Copilot";
    assert NAMES[4] == "Copilot" && NAMES[5] == "Cursor" && NAMES[6] == "Microsoft";
  }

  /** `replace_names` is complete: its output contains none of the listed names. */
  lemma ReplaceNamesIsComplete(s: string, name: string)
    requires name in {"Zed", "Cline", "Roo", "GitHub Copilot", "Copilot", "Cursor", "Microsoft"}
    ensures !Occurs(name, ReplaceEach(s, NAMES))
  {
    NamesAreListed(name);
    forall n | n in NAMES
      ensures n != "" && Detached(n, CODEX)
    {
      NamesAreDetached(n);
    }
    EachIsGone(s, NAMES, name);
  }

  /** A second application changes nothing, and the first changes exactly the texts in which a
      listed name occurs. */
  lemma ReplaceNamesIsIdempotent(s: string)
    ensures ReplaceEach(ReplaceEach(s, NAMES), NAMES) == ReplaceEach(s, NAMES)
    ensures ReplaceEach(s, NAMES) == s <==> forall n :: n in NAMES ==> !Occurs(n, s)
  {
    forall n | n in NAMES
      ensures n != "" && !Occurs(n, ReplaceEach(s, NAMES))
    {
      NamesAreListed(n);
      ReplaceNamesIsComplete(s, n);
    }
    NoneToReplace(ReplaceEach(s, NAMES), NAMES);
    if forall n :: n in NAMES ==> !Occurs(n, s) {
      NoneToReplace(s, NAMES);
    }
  }
}
