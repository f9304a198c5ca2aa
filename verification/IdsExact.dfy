/** Exactly which strings the identifier checks accept, position by position. */
module IdsExact {
  import opened Base
  import opened Ids
  import opened Utf8

  // ── object and repository ids ────────────────────────────────────────

  lemma HexCharIff(c: char)
    ensures HexChar(c) <==> c in "0123456789abcdef"
  {
    var digits := "0123456789abcdef";
    if HexChar(c) {
      var k := if c <= '9' then c as int - '0' as int else c as int - 'a' as int + 10;
      assert 0 <= k < 16 && digits[k] == c;
    }
  }

  lemma ObjectIdIff(s: string)
    ensures ValidOid(s) <==> |s| == 40 && forall i :: 0 <= i < |s| ==> s[i] in "0123456789abcdef"
  {
    hide HexChar;
    forall i | 0 <= i < |s| ensures HexChar(s[i]) <==> s[i] in "0123456789abcdef" {
      HexCharIff(s[i]);
    }
  }

  lemma LetterIff(c: char)
    ensures 97 <= c as int <= 122 <==> c in "abcdefghijklmnopqrstuvwxyz"
  {
    var letters := "abcdefghijklmnopqrstuvwxyz";
    if 97 <= c as int <= 122 {
      assert letters[c as int - 97] == c;
    }
  }

  lemma DigitIff(c: char)
    ensures 48 <= c as int <= 57 <==> c in "0123456789"
  {
    var digits := "0123456789";
    if 48 <= c as int <= 57 {
      assert digits[c as int - 48] == c;
    }
  }

  lemma RepoIdIff(s: string)
    ensures ValidRepoIdText(s) <==>
            4 <= |s| <= 64 && forall i :: 0 <= i < |s| ==> s[i] in "abcdefghijklmnopqrstuvwxyz" || s[i] in "0123456789" || s[i] == '-' || s[i] == '_'
  {
    forall i | 0 <= i < |s|
      ensures (97 <= s[i] as int <= 122 <==> s[i] in "abcdefghijklmnopqrstuvwxyz") && (48 <= s[i] as int <= 57 <==> s[i] in "0123456789")
    {
      LetterIff(s[i]);
      DigitIff(s[i]);
    }
  }

  // ── ref and branch names ─────────────────────────────────────────────

  /** No control, DEL, space or reserved character, no `..` and no `@{`. */
  ghost predicate GoodCharacters(s: string) {
    && (forall i :: 0 <= i < |s| ==>
          && 32 < s[i] as int && s[i] as int != 127
          && s[i] != '~' && s[i] != '^' && s[i] != ':' && s[i] != '?' && s[i] != '*' && s[i] != '[' && s[i] != '\\')
    && forall i, j :: 0 <= i < |s| && j == i + 1 && j < |s| ==> !(s[i] == '.' && s[j] == '.') && !(s[i] == '@' && s[j] == '{')
  }

  /** A slash-delimited piece of `s` starts at `i`. */
  predicate StartsPiece(s: string, i: nat) {
    i <= |s| && (i == 0 || s[i - 1] == '/')
  }

  /** A piece ends before `j`. */
  predicate EndsPiece(s: string, j: nat) {
    j <= |s| && (j == |s| || s[j] == '/')
  }

  predicate LockBefore(s: string, j: nat) {
    5 <= j <= |s| && s[j - 5] == '.' && s[j - 4] == 'l' && s[j - 3] == 'o' && s[j - 2] == 'c' && s[j - 1] == 'k'
  }

  /** No piece is empty or starts with a dot, and none ends in `.lock`. */
  ghost predicate GoodPieces(s: string) {
    && (forall i: nat :: StartsPiece(s, i) ==> i < |s| && s[i] != '/' && s[i] != '.')
    && forall j: nat :: EndsPiece(s, j) ==> !LockBefore(s, j)
  }

  ghost predicate SomePieceStartsWithDash(s: string) {
    exists i: nat :: StartsPiece(s, i) && i < |s| && s[i] == '-'
  }

  /** The length of the first piece. */
  function FirstPiece(s: string): (n: nat)
    ensures n <= |s| && (n < |s| ==> s[n] == '/') && forall k :: 0 <= k < n ==> s[k] != '/'
  {
    if s == "" || s[0] == '/' then 0 else 1 + FirstPiece(s[1..])
  }

  lemma {:induction false} SplitWhole(s: string)
    requires forall k :: 0 <= k < |s| ==> s[k] != '/'
    ensures Split(s) == [s]
    decreases |s|
  {
    if s != "" {
      SplitWhole(s[1..]);
      assert [s[0]] + s[1..] == s;
    }
  }

  lemma GoodPartIff(p: string)
    requires forall k :: 0 <= k < |p| ==> p[k] != '/'
    ensures BranchPart(p) <==> p != "" && p[0] != '.' && !LockBefore(p, |p|)
    ensures StartsWith(p, "-") <==> p != "" && p[0] == '-'
  {
    if |p| >= 5 {
      assert p[|p| - 5..] == [p[|p| - 5], p[|p| - 4], p[|p| - 3], p[|p| - 2], p[|p| - 1]];
      assert ".lock" == ['.', 'l', 'o', 'c', 'k'];
    }
  }

  lemma WholeIsOnePiece(s: string)
    requires forall k :: 0 <= k < |s| ==> s[k] != '/'
    ensures forall i: nat :: StartsPiece(s, i) <==> i == 0
    ensures forall j: nat :: EndsPiece(s, j) <==> j == |s|
  {
  }

  /** The pieces of `s` are its first one and those of the rest behind the first slash. */
  lemma PiecesOfRest(s: string, n: nat, i: nat)
    requires n < |s| && s[n] == '/' && forall k :: 0 <= k < n ==> s[k] != '/'
    ensures i <= n ==> (StartsPiece(s, i) <==> i == 0) && (EndsPiece(s, i) <==> i == n)
    ensures i > n ==>
              && (StartsPiece(s, i) <==> StartsPiece(s[n + 1..], i - n - 1))
              && (EndsPiece(s, i) <==> EndsPiece(s[n + 1..], i - n - 1))
              && (LockBefore(s, i) <==> LockBefore(s[n + 1..], i - n - 1))
  {
    var rest := s[n + 1..];
    assert forall k :: 0 <= k < |rest| ==> rest[k] == s[n + 1 + k];
    if n < i <= |s| && i - n - 1 < 5 && i >= 5 {
      assert s[i - 5..i][n - (i - 5)] == '/';
    }
  }

  lemma GoodPiecesSplit(s: string, n: nat)
    requires n < |s| && s[n] == '/' && forall k :: 0 <= k < n ==> s[k] != '/'
    ensures GoodPieces(s) <==> BranchPart(s[..n]) && GoodPieces(s[n + 1..])
  {
    hide LockBefore, BranchPart, StartsPiece, EndsPiece;
    var p, rest := s[..n], s[n + 1..];
    GoodPartIff(p);
    FirstEnd(s, n);
    forall i: nat ensures i <= n ==> (StartsPiece(s, i) <==> i == 0) && (EndsPiece(s, i) <==> i == n)
                  ensures i > n ==> (StartsPiece(s, i) <==> StartsPiece(rest, i - n - 1)) && (EndsPiece(s, i) <==> EndsPiece(rest, i - n - 1))
    {
      PiecesOfRest(s, n, i);
    }
    if GoodPieces(s) {
      FirstGood(s, n);
      forall i: nat | StartsPiece(rest, i) ensures i < |rest| && rest[i] != '/' && rest[i] != '.' {
        assert StartsPiece(s, i + n + 1);
      }
      forall j: nat | EndsPiece(rest, j) ensures !LockBefore(rest, j) {
        PiecesOfRest(s, n, j + n + 1);
        assert EndsPiece(s, j + n + 1);
      }
    }
    if BranchPart(p) && GoodPieces(rest) {
      forall i: nat | StartsPiece(s, i) ensures i < |s| && s[i] != '/' && s[i] != '.' {
        if i > n {
          assert StartsPiece(rest, i - n - 1) && s[i] == rest[i - n - 1];
        } else {
          assert p[0] == s[0];
        }
      }
      forall j: nat | EndsPiece(s, j) ensures !LockBefore(s, j) {
        PiecesOfRest(s, n, j);
        if j > n {
          assert EndsPiece(rest, j - n - 1);
        }
      }
    }
  }

  lemma FirstEnd(s: string, n: nat)
    requires n <= |s|
    ensures LockBefore(s, n) <==> LockBefore(s[..n], n)
  {
  }

  lemma FirstGood(s: string, n: nat)
    requires n < |s| && s[n] == '/' && GoodPieces(s)
    ensures n > 0 && s[0] != '/' && s[0] != '.' && !LockBefore(s, n)
  {
    assert StartsPiece(s, 0) && EndsPiece(s, n);
  }

  lemma PartsCons(s: string, p: string, rest: string)
    requires Split(s) == [p] + Split(rest)
    ensures Parts(s) <==> BranchPart(p) && Parts(rest)
    ensures OptionLike(s) <==> StartsWith(p, "-") || OptionLike(rest)
  {
    hide BranchPart, StartsWith, Split;
    var all, more := Split(s), Split(rest);
    assert forall k :: 0 <= k < |more| ==> all[k + 1] == more[k];
    if Parts(s) {
      assert BranchPart(all[0]);
      forall k | 0 <= k < |more| ensures BranchPart(more[k]) {
        assert BranchPart(all[k + 1]);
      }
    }
    if StartsWith(p, "-") {
      assert StartsWith(all[0], "-");
    }
    if OptionLike(rest) {
      var k :| 0 <= k < |more| && StartsWith(more[k], "-");
      assert StartsWith(all[k + 1], "-");
    }
  }

  lemma DashSplit(s: string, n: nat)
    requires n < |s| && s[n] == '/' && forall k :: 0 <= k < n ==> s[k] != '/'
    ensures SomePieceStartsWithDash(s) <==> StartsWith(s[..n], "-") || SomePieceStartsWithDash(s[n + 1..])
  {
    hide LockBefore, StartsPiece, StartsWith;
    var p, rest := s[..n], s[n + 1..];
    GoodPartIff(p);
    forall i: nat ensures i <= n ==> (StartsPiece(s, i) <==> i == 0)
                  ensures i > n ==> (StartsPiece(s, i) <==> StartsPiece(rest, i - n - 1))
    {
      PiecesOfRest(s, n, i);
    }
    if SomePieceStartsWithDash(s) {
      var i: nat :| StartsPiece(s, i) && i < |s| && s[i] == '-';
      if i > n {
        assert StartsPiece(rest, i - n - 1) && rest[i - n - 1] == s[i];
      }
    }
    if StartsWith(p, "-") {
      assert StartsPiece(s, 0) && s[0] == p[0];
    }
    if SomePieceStartsWithDash(rest) {
      var i: nat :| StartsPiece(rest, i) && i < |rest| && rest[i] == '-';
      assert StartsPiece(s, i + n + 1) && s[i + n + 1] == rest[i];
    }
  }

  lemma {:induction false} PiecesIff(s: string)
    ensures Parts(s) <==> GoodPieces(s)
    ensures OptionLike(s) <==> SomePieceStartsWithDash(s)
    decreases |s|
  {
    var n := FirstPiece(s);
    if n == |s| {
      SplitWhole(s);
      WholeIsOnePiece(s);
      GoodPartIff(s);
      assert Split(s)[0] == s;
      assert StartsPiece(s, 0) && EndsPiece(s, |s|);
    } else {
      hide GoodPieces, Parts, OptionLike, SomePieceStartsWithDash, BranchPart, StartsWith;
      var rest := s[n + 1..];
      assert s == s[..n] + "/" + rest;
      SplitAfter(s[..n], rest);
      PartsCons(s, s[..n], rest);
      GoodPiecesSplit(s, n);
      DashSplit(s, n);
      PiecesIff(rest);
    }
  }

  lemma RefCharIff(c: char)
    ensures RefChar(c) <==>
            32 < c as int && c as int != 127 && c != '~' && c != '^' && c != ':' && c != '?' && c != '*' && c != '['
  {
    assert " ~^:?*[" == [' ', '~', '^', ':', '?', '*', '['];
  }

  /** With good pieces the rules about slashes at the ends and in a row say nothing more. */
  lemma WellShapedIff(s: string)
    requires GoodPieces(s)
    ensures WellShaped(s) <==> s != "" && GoodCharacters(s) && s[|s| - 1] != '.'
  {
    if s != "" {
      SlashesBetweenPieces(s);
      hide GoodPieces, RefChar;
      CharactersIff(s);
      assert s[|s| - 1..] == [s[|s| - 1]];
    }
  }

  lemma CharactersIff(s: string)
    ensures GoodCharacters(s) <==>
            && (forall i :: 0 <= i < |s| ==> RefChar(s[i])) && '\\' !in s
            && !ContainsPair(s, '.', '.') && !ContainsPair(s, '@', '{')
  {
    hide RefChar;
    forall i | 0 <= i < |s|
      ensures RefChar(s[i]) <==> (32 < s[i] as int && s[i] as int != 127 && s[i] != '~' && s[i] != '^' && s[i] != ':' && s[i] != '?'
                                  && s[i] != '*' && s[i] != '[')
    {
      RefCharIff(s[i]);
    }
  }

  lemma SlashesBetweenPieces(s: string)
    requires GoodPieces(s) && s != ""
    ensures s[0] != '/' && s[|s| - 1] != '/' && !ContainsPair(s, '/', '/')
  {
    assert StartsPiece(s, 0);
    assert StartsPiece(s, |s|) <==> s[|s| - 1] == '/';
    forall i | 0 <= i < |s| - 1 ensures !(s[i] == '/' && s[i + 1] == '/') {
      assert StartsPiece(s, i + 1) <==> s[i] == '/';
    }
  }

  /** Exactly the branch names that the REST endpoints accept. */
  lemma BranchNameIff(s: string)
    ensures ValidBranchName(s) <==> s != "" && s != "@" && GoodCharacters(s) && s[|s| - 1] != '.' && GoodPieces(s)
  {
    hide WellShaped, GoodCharacters, GoodPieces, Parts;
    PiecesIff(s);
    if GoodPieces(s) {
      WellShapedIff(s);
    }
  }

  /** Exactly the ref names that the store accepts: no piece may look like an option either. */
  lemma RefNameIff(s: string)
    ensures ValidRefName(s) <==>
            s == "HEAD" || (s != "" && GoodCharacters(s) && s[|s| - 1] != '.' && GoodPieces(s) && !SomePieceStartsWithDash(s))
  {
    hide WellShaped, GoodCharacters, GoodPieces, Parts, OptionLike, SomePieceStartsWithDash;
    PiecesIff(s);
    if GoodPieces(s) {
      WellShapedIff(s);
    }
  }

  /** What a branch is called in the store. */
  lemma BranchRefText(branch: string)
    ensures BranchRef(branch) == "refs/heads/" + branch
  {
  }

  /** On bytes the repository check is the same as on the text they encode. */
  lemma RepoIdBytesIff(s: string)
    ensures ValidRepoId(Encoded(s)) <==> ValidRepoIdText(s)
  {
    if IsAscii(s) {
      OneByOne(s);
    } else {
      var i :| 0 <= i < |s| && s[i] as int >= 0x80;
      HighByte(s, i);
      var k :| 0 <= k < |Encoded(s)| && Encoded(s)[k] >= 0x80;
      assert !RepoIdCode(s[i] as int) && !RepoIdCode(Encoded(s)[k]);
    }
  }

  lemma {:induction false} HighByte(s: string, i: nat)
    requires i < |s| && s[i] as int >= 0x80
    ensures exists k :: 0 <= k < |Encoded(s)| && Encoded(s)[k] >= 0x80
    decreases i
  {
    if i == 0 {
      assert Encoded(s)[0] == EncodedChar(s[0])[0];
    } else {
      HighByte(s[1..], i - 1);
      var k :| 0 <= k < |Encoded(s[1..])| && Encoded(s[1..])[k] >= 0x80;
      assert Encoded(s)[|EncodedChar(s[0])| + k] == Encoded(s[1..])[k];
    }
  }
}
