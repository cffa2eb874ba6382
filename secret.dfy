/**
 * The secret code the user types on the sign-in screen, `username:repo:token`,
 * and how `SchoolMemoryViewer.parseSecretCode` takes it apart with
 * `String.prototype.split(':')`.
 */
module Secret {
  import opened Wrappers

  const Separator: char := ':'

  /** The three coordinates of the data repository; any of them may be empty. */
  datatype Coordinates = Coordinates(username: string, repo: string, token: string)

  /** Number of separators in `s`. */
  function Count(s: string): nat
  {
    if s == [] then 0 else Count(s[1..]) + (if s[0] == Separator then 1 else 0)
  }

  /**
   * `s.split(':')`: the maximal separator-free pieces between separators, in
   * order; the empty string splits into one empty piece.
   */
  function Split(s: string): (pieces: seq<string>)
    ensures |pieces| >= 1
  {
    if s == [] then [[]]
    else
      var rest := Split(s[1..]);
      if s[0] == Separator then [[]] + rest
      else [[s[0]] + rest[0]] + rest[1..]
  }

  /** `pieces.join(':')` */
  function Join(pieces: seq<string>): string
    requires |pieces| >= 1
  {
    if |pieces| == 1 then pieces[0] else pieces[0] + [Separator] + Join(pieces[1..])
  }

  ghost predicate SeparatorFree(s: string)
  {
    forall k :: 0 <= k < |s| ==> s[k] != Separator
  }

  /** Splitting gives one piece more than there are separators. */
  lemma {:induction false} SplitLength(s: string)
    ensures |Split(s)| == Count(s) + 1
  {
    if s != [] { SplitLength(s[1..]); }
  }

  /** No piece of a split contains the separator. */
  lemma {:induction false} SplitPiecesSeparatorFree(s: string)
    ensures forall i :: 0 <= i < |Split(s)| ==> SeparatorFree(Split(s)[i])
  {
    if s != [] {
      SplitPiecesSeparatorFree(s[1..]);
      var rest := Split(s[1..]);
      if s[0] != Separator {
        assert SeparatorFree([s[0]] + rest[0]) by {
          forall k | 0 <= k < |[s[0]] + rest[0]| ensures ([s[0]] + rest[0])[k] != Separator {
            if k > 0 { assert ([s[0]] + rest[0])[k] == rest[0][k - 1]; }
          }
        }
      }
    }
  }

  /** Prepending a character to the first piece prepends it to the join. */
  lemma {:induction false} JoinPrepend(c: char, pieces: seq<string>)
    requires |pieces| >= 1
    ensures Join([[c] + pieces[0]] + pieces[1..]) == [c] + Join(pieces)
  {
    var longer := [[c] + pieces[0]] + pieces[1..];
    assert |longer| == |pieces| && longer[0] == [c] + pieces[0];
    if |pieces| > 1 {
      assert longer[1..] == pieces[1..];
      var tail := Join(pieces[1..]);
      assert Join(longer) == ([c] + pieces[0]) + [Separator] + tail;
      assert Join(pieces) == pieces[0] + [Separator] + tail;
      assert ([c] + pieces[0]) + [Separator] + tail == [c] + (pieces[0] + [Separator] + tail);
    }
  }

  /** Joining the pieces of a split gives back the input. */
  lemma {:induction false} JoinSplit(s: string)
    ensures Join(Split(s)) == s
  {
    if s != [] {
      var rest := Split(s[1..]);
      JoinSplit(s[1..]);
      if s[0] == Separator {
        assert ([[]] + rest)[1..] == rest;
        assert Join([[]] + rest) == [Separator] + s[1..];
      } else {
        JoinPrepend(s[0], rest);
      }
      assert [s[0]] + s[1..] == s;
    }
  }

  /** A separator-free string is a single piece, and a separator after it starts a new one. */
  lemma {:induction false} SplitAfterPiece(p: string, t: string)
    requires SeparatorFree(p)
    ensures Split(p) == [p]
    ensures Split(p + [Separator] + t) == [p] + Split(t)
  {
    if p != [] {
      assert (p + [Separator] + t)[1..] == p[1..] + [Separator] + t;
      SplitAfterPiece(p[1..], t);
      assert [p[0]] + p[1..] == p;
    } else {
      assert p + [Separator] + t == [Separator] + t;
      assert ([Separator] + t)[1..] == t;
    }
  }

  /** Splitting a join of separator-free pieces gives back the pieces. */
  lemma {:induction false} SplitJoin(pieces: seq<string>)
    requires |pieces| >= 1
    requires forall i :: 0 <= i < |pieces| ==> SeparatorFree(pieces[i])
    ensures Split(Join(pieces)) == pieces
  {
    SplitAfterPiece(pieces[0], []);
    if |pieces| > 1 {
      SplitJoin(pieces[1..]);
      SplitAfterPiece(pieces[0], Join(pieces[1..]));
    }
  }

  /** `parseSecretCode`: the three pieces when the split gives exactly three, otherwise `null`. */
  function ParseSecretCode(secret: string): Option<Coordinates>
  {
    var parts := Split(secret);
    if |parts| != 3 then None else Some(Coordinates(parts[0], parts[1], parts[2]))
  }

  /** The secret a user would type for the given coordinates. */
  function Format(c: Coordinates): string
  {
    c.username + [Separator] + c.repo + [Separator] + c.token
  }

  /** Joining three pieces puts a separator between neighbours. */
  lemma JoinThree(a: string, b: string, c: string)
    ensures Join([a, b, c]) == a + [Separator] + b + [Separator] + c
  {
    assert [a, b, c][1..] == [b, c];
    assert [b, c][1..] == [c];
    calc {
      Join([a, b, c]);
      a + [Separator] + Join([b, c]);
      a + [Separator] + (b + [Separator] + c);
      a + [Separator] + b + [Separator] + c;
    }
  }

  /** The secret is refused exactly when it does not hold exactly two separators. */
  lemma ParseRejectsIff(secret: string)
    ensures ParseSecretCode(secret).None? <==> Count(secret) != 2
  {
    SplitLength(secret);
  }

  /** An accepted secret is its three parts joined by separators, and no part holds a separator. */
  lemma ParseRoundTrip(secret: string)
    requires ParseSecretCode(secret).Some?
    ensures Format(ParseSecretCode(secret).value) == secret
    ensures var c := ParseSecretCode(secret).value;
      SeparatorFree(c.username) && SeparatorFree(c.repo) && SeparatorFree(c.token)
  {
    var parts := Split(secret);
    JoinSplit(secret);
    SplitPiecesSeparatorFree(secret);
    assert parts == [parts[0], parts[1], parts[2]];
    JoinThree(parts[0], parts[1], parts[2]);
  }

  /** Any coordinates without separators survive being typed as a secret and parsed again, empty parts included. */
  lemma FormatParse(c: Coordinates)
    requires SeparatorFree(c.username) && SeparatorFree(c.repo) && SeparatorFree(c.token)
    ensures ParseSecretCode(Format(c)) == Some(c)
  {
    var parts := [c.username, c.repo, c.token];
    JoinThree(c.username, c.repo, c.token);
    SplitJoin(parts);
  }
}
