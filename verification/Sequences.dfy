/** Splitting a sequence at separators and gluing it back, shared by the framing
    of lines, of event blocks and of payloads. */
module Sequences {

  newtype byte = x: int | 0 <= x < 256
  type bytes = seq<byte>

  datatype Option<+T> = None | Some(value: T) {
    function GetOr(default: T): T {
      if Some? then value else default
    }
  }

  function Last<T>(s: seq<T>): T
    requires s != []
  {
    s[|s| - 1]
  }

  function Init<T>(s: seq<T>): (r: seq<T>)
    requires s != []
    ensures |r| == |s| - 1
  {
    s[..|s| - 1]
  }

  lemma Snoc<T>(s: seq<T>, x: T)
    ensures Init(s + [x]) == s && Last(s + [x]) == x
  {
  }

  lemma Associative<T>(a: seq<T>, b: seq<T>, c: seq<T>)
    ensures a + b + c == a + (b + c)
  {
  }

  /** The pieces between separators; one more piece than there are separators. */
  function Split<T>(s: seq<T>, sep: T -> bool): (parts: seq<seq<T>>)
    ensures parts != []
  {
    if s == [] then [[]]
    else
      var front := Split(Init(s), sep);
      if sep(Last(s)) then front + [[]]
      else Init(front) + [Last(front) + [Last(s)]]
  }

  /** Glue pieces with one separator between neighbours. */
  function Join<T>(parts: seq<seq<T>>, glue: T): seq<T> {
    if parts == [] then []
    else if |parts| == 1 then parts[0]
    else Join(Init(parts), glue) + [glue] + Last(parts)
  }

  function Concat<T>(parts: seq<seq<T>>): seq<T> {
    if parts == [] then [] else Concat(Init(parts)) + Last(parts)
  }

  function Map<A, B>(f: A -> B, s: seq<A>): (r: seq<B>)
    ensures |r| == |s|
    ensures forall i :: 0 <= i < |s| ==> r[i] == f(s[i])
  {
    if s == [] then [] else Map(f, Init(s)) + [f(Last(s))]
  }

  lemma SplitSnoc<T>(s: seq<T>, x: T, sep: T -> bool)
    ensures Split(s + [x], sep)
         == if sep(x) then Split(s, sep) + [[]]
            else Init(Split(s, sep)) + [Last(Split(s, sep)) + [x]]
  {
    Snoc(s, x);
  }

  lemma {:induction false} SplitAtSeparator<T>(a: seq<T>, x: T, b: seq<T>, sep: T -> bool)
    requires sep(x)
    ensures Split(a + [x] + b, sep) == Split(a, sep) + Split(b, sep)
  {
    if b == [] {
      assert a + [x] + b == a + [x];
      SplitSnoc(a, x, sep);
    } else {
      assert Init(a + [x] + b) == a + [x] + Init(b) && Last(a + [x] + b) == Last(b);
      SplitAtSeparator(a, x, Init(b), sep);
      var left, right := Split(a, sep), Split(Init(b), sep);
      assert Init(left + right) == left + Init(right) && Last(left + right) == Last(right);
      Associative(left, right, [[]]);
      Associative(left, Init(right), [Last(right) + [Last(b)]]);
    }
  }

  lemma {:induction false} SplitWhole<T>(s: seq<T>, sep: T -> bool)
    requires forall i :: 0 <= i < |s| ==> !sep(s[i])
    ensures Split(s, sep) == [s]
  {
    if s != [] {
      SplitWhole(Init(s), sep);
      assert s == Init(s) + [Last(s)];
    }
  }

  lemma {:induction false} SplitPiecesHaveNoSeparator<T>(s: seq<T>, sep: T -> bool)
    ensures forall k, i :: 0 <= k < |Split(s, sep)| && 0 <= i < |Split(s, sep)[k]| ==> !sep(Split(s, sep)[k][i])
  {
    if s != [] {
      SplitPiecesHaveNoSeparator(Init(s), sep);
    }
  }

  lemma {:induction false} JoinOfSplit<T>(s: seq<T>, glue: T, sep: T -> bool)
    requires forall x :: x in s ==> (sep(x) <==> x == glue)
    ensures Join(Split(s, sep), glue) == s
  {
    if s != [] {
      var front := Split(Init(s), sep);
      JoinOfSplit(Init(s), glue, sep);
      assert s == Init(s) + [Last(s)];
      if sep(Last(s)) {
        Snoc(front, []);
      } else {
        var parts := Init(front) + [Last(front) + [Last(s)]];
        Snoc(Init(front), Last(front) + [Last(s)]);
        if |front| > 1 {
          assert Join(parts, glue) == Join(Init(front), glue) + [glue] + (Last(front) + [Last(s)]);
        }
      }
    }
  }

  lemma {:induction false} SplitOfJoin<T>(parts: seq<seq<T>>, glue: T, sep: T -> bool)
    requires parts != [] && sep(glue)
    requires forall k, i :: 0 <= k < |parts| && 0 <= i < |parts[k]| ==> !sep(parts[k][i])
    ensures Split(Join(parts, glue), sep) == parts
  {
    SplitWhole(Last(parts), sep);
    if |parts| > 1 {
      SplitOfJoin(Init(parts), glue, sep);
      SplitAtSeparator(Join(Init(parts), glue), glue, Last(parts), sep);
      assert parts == Init(parts) + [Last(parts)];
    }
  }
}
