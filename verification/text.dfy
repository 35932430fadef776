/** The pieces of Go's `strings` and `strconv` packages the registry relies on,
    restricted to the forms it uses: a one-character separator and a non-negative port. */
module Text {

  /** `strings.Split(s, string(sep))`: the pieces of `s` between occurrences of
      `sep`. Like Go, the empty string splits into one empty piece, so there is
      always at least one piece. */
  function Split(s: string, sep: char): (pieces: seq<string>)
    ensures |pieces| >= 1
    ensures forall i :: 0 <= i < |pieces| ==> sep !in pieces[i]
    decreases |s|
  {
    if |s| == 0 then [""]
    else
      var rest := Split(s[1..], sep);
      if s[0] == sep then [""] + rest
      else [[s[0]] + rest[0]] + rest[1..]
  }

  /** `strings.Join(pieces, string(sep))`. */
  function Join(pieces: seq<string>, sep: char): string
    decreases |pieces|
  {
    if |pieces| == 0 then ""
    else if |pieces| == 1 then pieces[0]
    else pieces[0] + [sep] + Join(pieces[1..], sep)
  }

  /** Joining the pieces of a split gives back the original string. */
  lemma {:induction false} JoinSplit(s: string, sep: char)
    ensures Join(Split(s, sep), sep) == s
    decreases |s|
  {
    if |s| > 0 {
      var rest := Split(s[1..], sep);
      JoinSplit(s[1..], sep);
      if s[0] == sep {
        assert Split(s, sep) == [""] + rest;
        assert ([""] + rest)[1..] == rest;
      } else {
        var pieces := Split(s, sep);
        assert pieces == [[s[0]] + rest[0]] + rest[1..];
        if |rest| == 1 {
          assert pieces == [[s[0]] + rest[0]];
        } else {
          assert pieces[1..] == rest[1..];
          assert Join(rest, sep) == rest[0] + [sep] + Join(rest[1..], sep);
        }
      }
      assert s == [s[0]] + s[1..];
    }
  }

  /** Splitting a join of separator-free pieces gives back the pieces. */
  lemma {:induction false} SplitJoin(pieces: seq<string>, sep: char)
    requires |pieces| >= 1
    requires forall i :: 0 <= i < |pieces| ==> sep !in pieces[i]
    ensures Split(Join(pieces, sep), sep) == pieces
    decreases |pieces|, |pieces[0]|
  {
    var head := pieces[0];
    if |head| > 0 {
      var shorter := [head[1..]] + pieces[1..];
      assert shorter[0] == head[1..];
      assert forall i :: 1 <= i < |shorter| ==> shorter[i] == pieces[i];
      SplitJoin(shorter, sep);
      assert shorter[1..] == pieces[1..];
      JoinHead(pieces, sep);
      var j := Join(pieces, sep);
      assert j == [head[0]] + Join(shorter, sep);
      assert j[1..] == Join(shorter, sep);
      assert head[0] != sep by { assert head[0] in head; }
      assert [[head[0]] + head[1..]] + pieces[1..] == pieces by {
        assert [head[0]] + head[1..] == head;
      }
    } else if |pieces| > 1 {
      SplitJoin(pieces[1..], sep);
      var j := Join(pieces, sep);
      assert j == [sep] + Join(pieces[1..], sep);
      assert j[1..] == Join(pieces[1..], sep);
      assert [""] + pieces[1..] == pieces;
    }
  }

  /** The join of pieces whose first piece is non-empty starts with that piece's first character. */
  lemma JoinHead(pieces: seq<string>, sep: char)
    requires |pieces| >= 1 && |pieces[0]| > 0
    ensures Join(pieces, sep) == [pieces[0][0]] + Join([pieces[0][1..]] + pieces[1..], sep)
  {
    var shorter := [pieces[0][1..]] + pieces[1..];
    assert shorter[1..] == pieces[1..];
    assert pieces[0] == [pieces[0][0]] + pieces[0][1..];
  }

  /** Joining a non-empty prefix and one more piece. */
  lemma {:induction false} JoinSnoc(pieces: seq<string>, last: string, sep: char)
    requires |pieces| >= 1
    ensures Join(pieces + [last], sep) == Join(pieces, sep) + [sep] + last
    decreases |pieces|
  {
    if |pieces| == 1 {
      assert pieces + [last] == [pieces[0], last];
      assert [pieces[0], last][1..] == [last];
    } else {
      assert (pieces + [last])[1..] == pieces[1..] + [last];
      JoinSnoc(pieces[1..], last, sep);
    }
  }

  /** `sub` occurs in `s` starting at index `i`. */
  predicate OccursAt(s: string, sub: string, i: int) {
    0 <= i <= |s| - |sub| && s[i..i + |sub|] == sub
  }

  /** `strings.Contains(s, sub)`: `sub` occurs somewhere in `s` (the empty string
      occurs everywhere). */
  function Contains(s: string, sub: string): (b: bool)
    ensures b <==> exists i :: OccursAt(s, sub, i)
    decreases |s|
  {
    if |sub| > |s| then false
    else if s[..|sub|] == sub then
      assert OccursAt(s, sub, 0);
      true
    else
      var b := Contains(s[1..], sub);
      assert b ==> exists i :: OccursAt(s, sub, i) by {
        if b {
          var i :| OccursAt(s[1..], sub, i);
          assert OccursAt(s, sub, i + 1);
        }
      }
      assert (exists i :: OccursAt(s, sub, i)) ==> b by {
        if exists i :: OccursAt(s, sub, i) {
          var i :| OccursAt(s, sub, i);
          assert i != 0;
          assert OccursAt(s[1..], sub, i - 1);
        }
      }
      b
  }

  predicate IsDigit(c: char) {
    '0' <= c <= '9'
  }

  /** The decimal value of a string of digits, most significant first. */
  function DecimalValue(s: string): nat
    requires forall i :: 0 <= i < |s| ==> IsDigit(s[i])
    decreases |s|
  {
    if |s| == 0 then 0
    else
      assert IsDigit(s[|s| - 1]);
      DecimalValue(s[..|s| - 1]) * 10 + (s[|s| - 1] as int - '0' as int)
  }

  /** `strconv.Itoa(n)` for a non-negative `n`: its shortest decimal spelling. */
  function Itoa(n: nat): (s: string)
    ensures |s| >= 1
    ensures forall i :: 0 <= i < |s| ==> IsDigit(s[i])
    ensures DecimalValue(s) == n
    ensures |s| > 1 ==> s[0] != '0'
    decreases n
  {
    var digit := ('0' as int + n % 10) as char;
    if n < 10 then [digit]
    else
      var front := Itoa(n / 10);
      var s := front + [digit];
      assert s[..|s| - 1] == front;
      s
  }
}
