/** Strings as the source's standard library treats them. */
module Text {

  /** `std::tolower` in the "C" locale. */
  function LowerChar(c: char): char {
    if 'A' <= c <= 'Z' then (c as int + 32) as char else c
  }

  function Lower(s: string): string {
    seq(|s|, i requires 0 <= i < |s| => LowerChar(s[i]))
  }

  predicate PartAt<T(==)>(s: seq<T>, part: seq<T>, i: int) {
    0 <= i <= |s| - |part| && s[i..i + |part|] == part
  }

  predicate Contains<T(==)>(s: seq<T>, part: seq<T>) {
    exists i :: 0 <= i <= |s| && PartAt(s, part, i)
  }

  predicate ContainsCaseInsensitive(value: string, needle: string) {
    Contains(Lower(value), Lower(needle))
  }

  /** The order of `std::set<std::string>` and of the keys of a `std::map`. */
  predicate LexLe(a: string, b: string) {
    a == [] || (b != [] && (a[0] < b[0] || (a[0] == b[0] && LexLe(a[1..], b[1..]))))
  }

  lemma {:induction false} LexTotal(a: string, b: string)
    ensures LexLe(a, b) || LexLe(b, a)
    ensures LexLe(a, b) && LexLe(b, a) ==> a == b
  {
    if a != [] && b != [] && a[0] == b[0] {
      LexTotal(a[1..], b[1..]);
      assert a == [a[0]] + a[1..] && b == [b[0]] + b[1..];
    }
  }

  lemma {:induction false} LexTransitive(a: string, b: string, c: string)
    requires LexLe(a, b) && LexLe(b, c)
    ensures LexLe(a, c)
  {
    if a != [] && a[0] == b[0] && b[0] == c[0] {
      LexTransitive(a[1..], b[1..], c[1..]);
    }
  }

  predicate IsLeast(x: string, s: set<string>) {
    x in s && forall y :: y in s ==> LexLe(x, y)
  }

  lemma {:induction false} LeastExists(s: set<string>)
    requires s != {}
    ensures exists x :: IsLeast(x, s)
  {
    var y :| y in s;
    if s == {y} {
      LexTotal(y, y);
      assert IsLeast(y, s);
    } else {
      LeastExists(s - {y});
      var x :| IsLeast(x, s - {y});
      LexTotal(x, y);
      LexTotal(y, y);
      if LexLe(x, y) {
        assert IsLeast(x, s);
      } else {
        forall z | z in s ensures LexLe(y, z) {
          if z != y {
            LexTransitive(y, x, z);
          }
        }
        assert IsLeast(y, s);
      }
    }
  }

  lemma LeastIsUnique(s: set<string>)
    ensures forall x, y :: IsLeast(x, s) && IsLeast(y, s) ==> x == y
  {
    forall x, y | IsLeast(x, s) && IsLeast(y, s) ensures x == y {
      LexTotal(x, y);
    }
  }

  /** `*s.begin()` */
  function First(s: set<string>): (x: string)
    requires s != {}
    ensures IsLeast(x, s)
  {
    LeastExists(s);
    LeastIsUnique(s);
    var x :| IsLeast(x, s);
    x
  }

  /** The elements in the order in which iterating over the set visits them. */
  function InOrder(s: set<string>): (xs: seq<string>)
    ensures forall x :: x in xs <==> x in s
    ensures forall i, j :: 0 <= i < j < |xs| ==> xs[i] != xs[j]
  {
    if s == {} then []
    else
      var x := First(s);
      [x] + InOrder(s - {x})
  }

  /** Some place decides: before it the texts agree, and there `a` ends or has the smaller
      character. */
  ghost predicate Precedes(a: string, b: string) {
    exists k: nat :: Decides(a, b, k)
  }

  ghost predicate Decides(a: string, b: string, k: nat) {
    k <= |a| && k < |b| && a[..k] == b[..k] && (k == |a| || a[k] < b[k])
  }

  lemma {:induction false} LexIsPreceding(a: string, b: string)
    requires LexLe(a, b) && a != b
    ensures Precedes(a, b)
  {
    if a == "" || a[0] < b[0] {
      assert Decides(a, b, 0);
    } else {
      assert a == [a[0]] + a[1..] && b == [b[0]] + b[1..];
      LexIsPreceding(a[1..], b[1..]);
      var k: nat :| Decides(a[1..], b[1..], k);
      assert a[..k + 1] == [a[0]] + a[1..][..k] && b[..k + 1] == [b[0]] + b[1..][..k];
      assert Decides(a, b, k + 1);
    }
  }

  lemma LeastThenOthers(s: set<string>)
    requires s != {}
    ensures var x, more := First(s), InOrder(s - {First(s)});
            InOrder(s) == [x] + more && forall y :: y in more ==> y != x && LexLe(x, y)
  {
  }

  ghost predicate Ascends(xs: seq<string>) {
    forall i, j :: 0 <= i < j < |xs| ==> Precedes(xs[i], xs[j])
  }

  lemma AscendsCons(x: string, more: seq<string>)
    requires Ascends(more) && forall y :: y in more ==> y != x && LexLe(x, y)
    ensures Ascends([x] + more)
  {
    forall j | 0 <= j < |more| ensures Precedes(x, more[j]) {
      assert more[j] in more;
      LexIsPreceding(x, more[j]);
    }
  }

  /** Iterating visits the elements in ascending order. */
  lemma {:induction false} InOrderAscends(s: set<string>)
    ensures Ascends(InOrder(s))
  {
    if s != {} {
      LeastThenOthers(s);
      InOrderAscends(s - {First(s)});
      AscendsCons(First(s), InOrder(s - {First(s)}));
    }
  }

  /** Where the first `sep` is, or the length when there is none. */
  function IndexOf(s: string, sep: char): (i: nat)
    ensures i <= |s| && sep !in s[..i]
    ensures i < |s| ==> s[i] == sep
  {
    if s == [] || s[0] == sep then 0
    else
      assert s[..IndexOf(s[1..], sep) + 1] == [s[0]] + s[1..][..IndexOf(s[1..], sep)];
      IndexOf(s[1..], sep) + 1
  }

  lemma {:induction false} IndexOfFirst(s: string, sep: char, n: nat)
    requires n < |s| && s[n] == sep && sep !in s[..n]
    ensures IndexOf(s, sep) == n
    decreases n
  {
    if n > 0 {
      assert s[..n][0] == s[0] && s[1..][..n - 1] == s[..n][1..];
      IndexOfFirst(s[1..], sep, n - 1);
    }
  }

  /** The pieces that repeated `std::getline(input, piece, sep)` yields: a separator at the
      very end is not followed by an empty piece. */
  function Pieces(s: string, sep: char): seq<string> {
    if s == [] then []
    else
      var i := IndexOf(s, sep);
      if i == |s| then [s] else [s[..i]] + Pieces(s[i + 1..], sep)
  }

  lemma SplitOnce(piece: string, rest: string, sep: char)
    requires sep !in piece
    ensures Pieces(piece + [sep] + rest, sep) == [piece] + Pieces(rest, sep)
  {
    var s := piece + [sep] + rest;
    assert s[..|piece|] == piece && s[|piece|] == sep && s[|piece| + 1..] == rest;
    IndexOfFirst(s, sep, |piece|);
  }

  lemma LastPiece(piece: string, sep: char)
    requires piece != "" && sep !in piece
    ensures Pieces(piece, sep) == [piece]
  {
    assert IndexOf(piece, sep) == |piece|;
  }

  lemma {:induction false} PiecesHaveNoSeparator(s: string, sep: char)
    ensures forall p :: p in Pieces(s, sep) ==> sep !in p
    decreases |s|
  {
    if s != "" {
      var i := IndexOf(s, sep);
      if i < |s| {
        PiecesHaveNoSeparator(s[i + 1..], sep);
      } else {
        assert s[..i] == s;
      }
    }
  }

  // ---------------------------------------------------------------- character by character

  /** Every character replaced by its spelling. */
  function Spelled(spell: char -> string, s: string): string {
    if s == "" then "" else Spelled(spell, s[..|s| - 1]) + spell(s[|s| - 1])
  }

  lemma SpelledSnoc(spell: char -> string, s: string, c: char)
    ensures Spelled(spell, s + [c]) == Spelled(spell, s) + spell(c)
  {
    assert (s + [c])[..|s|] == s;
  }

  lemma {:induction false} SpelledChars(spell: char -> string, s: string, c: char)
    requires forall d :: c !in spell(d)
    ensures c !in Spelled(spell, s)
  {
    if s != "" {
      SpelledChars(spell, s[..|s| - 1], c);
    }
  }

  lemma {:induction false} SpelledAsIs(spell: char -> string, s: string)
    requires forall c :: c in s ==> spell(c) == [c]
    ensures Spelled(spell, s) == s
  {
    if s != "" {
      SpelledAsIs(spell, s[..|s| - 1]);
      assert s == s[..|s| - 1] + [s[|s| - 1]];
    }
  }

  /** A state that takes in a text character by character. */
  function TakeIn<S>(step: (S, char) -> S, start: S, s: string): S {
    if s == "" then start else step(TakeIn(step, start, s[..|s| - 1]), s[|s| - 1])
  }

  lemma TakeInSnoc<S>(step: (S, char) -> S, start: S, s: string, c: char)
    ensures TakeIn(step, start, s + [c]) == step(TakeIn(step, start, s), c)
  {
    assert (s + [c])[..|s|] == s;
  }

  // ---------------------------------------------------------------- joining

  /** The parts with a separator between every two. */
  function Join(parts: seq<string>, sep: char): string {
    if parts == [] then "" else if |parts| == 1 then parts[0] else parts[0] + [sep] + Join(parts[1..], sep)
  }

  lemma JoinCons(part: string, more: seq<string>, sep: char)
    requires more != []
    ensures Join([part] + more, sep) == part + [sep] + Join(more, sep)
  {
    assert ([part] + more)[1..] == more;
  }

  lemma {:induction false} JoinSnoc(parts: seq<string>, part: string, sep: char)
    requires parts != []
    ensures Join(parts + [part], sep) == Join(parts, sep) + [sep] + part
  {
    if |parts| == 1 {
      JoinCons(parts[0], [part], sep);
      assert parts + [part] == [parts[0]] + [part];
    } else {
      var more := parts[1..];
      JoinSnoc(more, part, sep);
      JoinCons(parts[0], more + [part], sep);
      assert parts + [part] == [parts[0]] + (more + [part]);
      assert parts[0] + [sep] + (Join(more, sep) + [sep] + part) == (parts[0] + [sep] + Join(more, sep)) + [sep] + part;
    }
  }

  predicate AreParts(parts: seq<string>, sep: char) {
    forall i :: 0 <= i < |parts| ==> parts[i] != "" && sep !in parts[i]
  }

  /** Splitting undoes joining. */
  lemma {:induction false} JoinedPieces(parts: seq<string>, sep: char)
    requires AreParts(parts, sep)
    ensures Pieces(Join(parts, sep), sep) == parts
  {
    if |parts| == 1 {
      LastPiece(parts[0], sep);
    } else if parts != [] {
      JoinedPieces(parts[1..], sep);
      SplitOnce(parts[0], Join(parts[1..], sep), sep);
    }
  }

  /** The text ends with its last piece, which is not empty, or with a separator behind it. */
  predicate Separates(s: string, ps: seq<string>, sep: char) {
    && (forall p :: p in ps ==> sep !in p)
    && (if ps == [] then s == ""
        else (s == Join(ps, sep) && ps[|ps| - 1] != "") || s == Join(ps, sep) + [sep])
  }

  lemma PieceInFront(piece: string, rest: string, ps: seq<string>, sep: char)
    requires Separates(rest, ps, sep) && sep !in piece
    ensures Separates(piece + [sep] + rest, [piece] + ps, sep)
  {
    if ps == [] {
      assert piece + [sep] + rest == piece + [sep];
    } else {
      JoinCons(piece, ps, sep);
      assert piece + [sep] + (Join(ps, sep) + [sep]) == piece + [sep] + Join(ps, sep) + [sep];
    }
  }

  lemma {:induction false} PiecesSeparate(s: string, sep: char)
    ensures Separates(s, Pieces(s, sep), sep)
    decreases |s|
  {
    if s != "" {
      var i := IndexOf(s, sep);
      if i == |s| {
        assert s[..i] == s;
      } else {
        PiecesSeparate(s[i + 1..], sep);
        PieceInFront(s[..i], s[i + 1..], Pieces(s[i + 1..], sep), sep);
        assert s == s[..i] + [sep] + s[i + 1..];
      }
    }
  }

  lemma BehindFirstPiece(s: string, ps: seq<string>, sep: char) returns (rest: string)
    requires Separates(s, ps, sep) && |ps| > 1
    ensures s == ps[0] + [sep] + rest && Separates(rest, ps[1..], sep)
  {
    var more := ps[1..];
    var joined := Join(more, sep);
    rest := if s == Join(ps, sep) && ps[|ps| - 1] != "" then joined else joined + [sep];
    assert ps[0] + [sep] + joined + [sep] == ps[0] + [sep] + (joined + [sep]);
    assert more[|more| - 1] == ps[|ps| - 1];
  }

  lemma OnePieceIsRead(s: string, piece: string, sep: char)
    requires sep !in piece && ((s == piece && piece != "") || s == piece + [sep])
    ensures Pieces(s, sep) == [piece]
  {
    if s == piece {
      LastPiece(s, sep);
    } else {
      assert s == piece + [sep] + "";
      SplitOnce(piece, "", sep);
    }
  }

  lemma {:induction false} SeparatedIsRead(s: string, ps: seq<string>, sep: char)
    requires Separates(s, ps, sep)
    ensures Pieces(s, sep) == ps
    decreases |ps|
  {
    if |ps| == 1 {
      OnePieceIsRead(s, ps[0], sep);
    } else if |ps| > 1 {
      var rest := BehindFirstPiece(s, ps, sep);
      SeparatedIsRead(rest, ps[1..], sep);
      SplitOnce(ps[0], rest, sep);
    }
  }

  /** Exactly how a text is split: no piece holds the separator, and the pieces with separators
      between them make up the text, but for one at the very end. */
  lemma PiecesAreExact(s: string, ps: seq<string>, sep: char)
    ensures Pieces(s, sep) == ps <==> Separates(s, ps, sep)
  {
    PiecesSeparate(s, sep);
    if Separates(s, ps, sep) {
      SeparatedIsRead(s, ps, sep);
    }
  }

  /** Joining brings in no character but the separator. */
  lemma {:induction false} JoinedChars(parts: seq<string>, sep: char, c: char)
    requires c != sep
    ensures c in Join(parts, sep) <==> exists i :: 0 <= i < |parts| && c in parts[i]
  {
    if |parts| > 1 {
      var more := parts[1..];
      JoinedChars(more, sep, c);
      assert c in Join(parts, sep) <==> c in parts[0] || c in Join(more, sep);
      if i :| 0 <= i < |more| && c in more[i] {
        assert c in parts[i + 1];
      }
    }
  }
}
