/** The identifier contracts of the server. */
module Ids {
  import opened Base

  predicate IsDigit(c: char) { '0' <= c <= '9' }

  predicate HexChar(c: char) { IsDigit(c) || 'a' <= c <= 'f' }

  /** 40 lowercase hex characters. */
  predicate ValidOid(s: string) {
    |s| == 40 && forall i :: 0 <= i < |s| ==> HexChar(s[i])
  }

  /** One of `[a-z0-9_-]`, by its code. */
  predicate RepoIdCode(u: int) {
    97 <= u <= 122 || 48 <= u <= 57 || u == 45 || u == 95
  }

  /** 4 to 64 bytes of `[a-z0-9_-]`. */
  predicate ValidRepoId(s: Bytes) {
    4 <= |s| <= 64 && forall i :: 0 <= i < |s| ==> RepoIdCode(s[i])
  }

  /** The same rule on text: all accepted characters are single bytes. */
  predicate ValidRepoIdText(s: string) {
    4 <= |s| <= 64 && forall i :: 0 <= i < |s| ==> RepoIdCode(s[i] as int)
  }

  // ── ref and branch names ─────────────────────────────────────────────

  predicate StartsWith(s: string, prefix: string) {
    prefix <= s
  }

  predicate EndsWith(s: string, suffix: string) {
    |suffix| <= |s| && s[|s| - |suffix|..] == suffix
  }

  predicate ContainsPair(s: string, a: char, b: char) {
    exists i :: 0 <= i < |s| - 1 && s[i] == a && s[i + 1] == b
  }

  function Split(s: string): (parts: seq<string>)
    ensures parts != []
  {
    if s == "" then [""]
    else if s[0] == '/' then [""] + Split(s[1..])
    else [[s[0]] + Split(s[1..])[0]] + Split(s[1..])[1..]
  }

  /** Characters no ref name may contain: controls, DEL, space and the reserved set. */
  predicate RefChar(c: char) {
    c as int >= 0x20 && c as int != 0x7f && c !in " ~^:?*["
  }

  /** The rules shared by the two validators, on the whole name. */
  predicate WellShaped(s: string) {
    && s != "" && !StartsWith(s, "/") && !EndsWith(s, "/") && !EndsWith(s, ".")
    && !ContainsPair(s, '/', '/') && !ContainsPair(s, '.', '.') && !ContainsPair(s, '@', '{')
    && '\\' !in s
    && forall i :: 0 <= i < |s| ==> RefChar(s[i])
  }

  predicate BranchPart(part: string) {
    part != "" && !StartsWith(part, ".") && !EndsWith(part, ".lock")
  }

  predicate Parts(s: string) {
    forall k :: 0 <= k < |Split(s)| ==> BranchPart(Split(s)[k])
  }

  predicate OptionLike(s: string) {
    exists k :: 0 <= k < |Split(s)| && StartsWith(Split(s)[k], "-")
  }

  predicate ValidRefName(s: string) {
    s == "HEAD" || (WellShaped(s) && Parts(s) && !OptionLike(s))
  }

  /** The check of the REST commit and merge endpoints, on the part after `refs/heads/`. */
  predicate ValidBranchName(s: string) {
    s != "@" && WellShaped(s) && Parts(s)
  }

  const HEADS := "refs/heads/"

  function BranchRef(branch: string): RefName {
    HEADS + branch
  }

  lemma {:induction false} SplitAfter(prefix: string, s: string)
    requires '/' !in prefix
    ensures Split(prefix + "/" + s) == [prefix] + Split(s)
    decreases |prefix|
  {
    var whole := prefix + "/" + s;
    if prefix == "" {
      assert whole[1..] == s;
    } else {
      assert whole[1..] == prefix[1..] + "/" + s;
      SplitAfter(prefix[1..], s);
      assert prefix == [prefix[0]] + prefix[1..];
    }
  }

  lemma SplitBranchRef(s: string)
    ensures Split(BranchRef(s)) == ["refs", "heads"] + Split(s)
  {
    SplitAfter("refs", "heads/" + s);
    SplitAfter("heads", s);
    assert BranchRef(s) == "refs" + "/" + ("heads/" + s);
    assert "heads/" + s == "heads" + "/" + s;
  }

  lemma PairFromHeads(s: string, a: char, b: char, i: nat)
    requires !ContainsPair(HEADS, a, b)
    requires i < |BranchRef(s)| - 1 && BranchRef(s)[i] == a && BranchRef(s)[i + 1] == b
    ensures ContainsPair(s, a, b) || (a == '/' && s != "" && s[0] == b)
  {
    var r := BranchRef(s);
    assert r[..11] == HEADS;
    assert forall k :: 0 <= k < 10 ==> !(r[..11][k] == a && r[..11][k + 1] == b);
    assert i >= 10;
    if i >= 11 {
      assert r[i] == s[i - 11] && r[i + 1] == s[i - 11 + 1];
    } else {
      assert HEADS[10] == '/' && r[10] == HEADS[10] && r[11] == s[0];
    }
  }

  lemma PairAfterHeads(s: string, a: char, b: char)
    requires !ContainsPair(HEADS, a, b)
    ensures ContainsPair(BranchRef(s), a, b) <==> ContainsPair(s, a, b) || (a == '/' && s != "" && s[0] == b)
  {
    var r := BranchRef(s);
    if ContainsPair(r, a, b) {
      var i :| 0 <= i < |r| - 1 && r[i] == a && r[i + 1] == b;
      PairFromHeads(s, a, b, i);
    }
    if ContainsPair(s, a, b) {
      var i :| 0 <= i < |s| - 1 && s[i] == a && s[i + 1] == b;
      assert r[i + 11] == s[i] && r[i + 11 + 1] == s[i + 1];
    }
    if a == '/' && s != "" && s[0] == b {
      assert r[10] == a && r[10 + 1] == b;
    }
  }

  lemma CharsAfterHeads(s: string)
    ensures (forall i :: 0 <= i < |BranchRef(s)| ==> RefChar(BranchRef(s)[i])) <==> forall i :: 0 <= i < |s| ==> RefChar(s[i])
    ensures '\\' in BranchRef(s) <==> '\\' in s
  {
    var r := BranchRef(s);
    assert forall i :: 0 <= i < 11 ==> r[i] == HEADS[i] && RefChar(HEADS[i]) && HEADS[i] != '\\';
    assert forall i :: 0 <= i < |s| ==> r[i + 11] == s[i];
    if forall i :: 0 <= i < |s| ==> RefChar(s[i]) {
      forall i | 0 <= i < |r| ensures RefChar(r[i]) {
        if i >= 11 {
          assert r[i] == s[i - 11];
        }
      }
    }
  }

  lemma EndsAfterHeads(s: string)
    requires s != ""
    ensures EndsWith(BranchRef(s), "/") <==> EndsWith(s, "/")
    ensures EndsWith(BranchRef(s), ".") <==> EndsWith(s, ".")
    ensures !StartsWith(BranchRef(s), "/") && (StartsWith(s, "/") <==> s[0] == '/')
  {
    var r := BranchRef(s);
    assert r[|r| - 1..] == s[|s| - 1..];
    assert r[0] == 'r';
  }

  lemma BareHeadsIsRejected()
    ensures EndsWith(BranchRef(""), "/")
  {
    assert BranchRef("")[10..] == "/";
  }

  lemma HeadsHasNoBadPair()
    ensures !ContainsPair(HEADS, '/', '/') && !ContainsPair(HEADS, '.', '.') && !ContainsPair(HEADS, '@', '{')
  {
    assert |HEADS| == 11;
    forall i | 0 <= i < 10 ensures !(HEADS[i] == '/' && HEADS[i + 1] == '/') && HEADS[i] != '.' && HEADS[i] != '@' {
    }
  }

  lemma ShapeAfterHeads(s: string)
    ensures WellShaped(BranchRef(s)) <==> WellShaped(s)
  {
    hide ContainsPair, EndsWith, StartsWith, RefChar, BranchRef;
    if s == "" {
      BareHeadsIsRejected();
    } else {
      HeadsHasNoBadPair();
      PairAfterHeads(s, '/', '/');
      PairAfterHeads(s, '.', '.');
      PairAfterHeads(s, '@', '{');
      CharsAfterHeads(s);
      EndsAfterHeads(s);
      HeadsIsNotEmpty(s);
    }
  }

  lemma HeadsIsNotEmpty(s: string)
    ensures BranchRef(s) != ""
  {
  }

  lemma FixedPart(part: string)
    requires part == "refs" || part == "heads"
    ensures BranchPart(part) && !StartsWith(part, "-")
  {
    assert part[0] != '.' && part[0] != '-';
    assert part[|part| - 1] == 's';
    assert ".lock"[4] == 'k';
  }

  lemma PartsAfterHeads(s: string)
    ensures Parts(BranchRef(s)) <==> Parts(s)
  {
    hide BranchPart, Split, BranchRef;
    SplitBranchRef(s);
    FixedPart("refs");
    FixedPart("heads");
    var all, own := Split(BranchRef(s)), Split(s);
    if Parts(BranchRef(s)) {
      forall k | 0 <= k < |own| ensures BranchPart(own[k]) {
        assert BranchPart(all[k + 2]);
      }
    }
  }

  lemma OptionsAfterHeads(s: string)
    ensures OptionLike(BranchRef(s)) <==> OptionLike(s)
  {
    hide StartsWith, Split, BranchRef;
    SplitBranchRef(s);
    FixedPart("refs");
    FixedPart("heads");
    var all, own := Split(BranchRef(s)), Split(s);
    if OptionLike(s) {
      var k :| 0 <= k < |own| && StartsWith(own[k], "-");
      assert StartsWith(all[k + 2], "-");
    }
  }

  /**
   How the two name checks relate: the ref store takes a branch exactly when the REST endpoints do,
   except that it refuses parts that look like options and takes the branch `@`.
   */
  lemma BranchNamesAndRefNames(s: string)
    ensures ValidRefName(BranchRef(s)) <==> (ValidBranchName(s) || s == "@") && !OptionLike(s)
  {
    ShapeAfterHeads(s);
    PartsAfterHeads(s);
    OptionsAfterHeads(s);
    assert BranchRef(s)[0] == 'r';
    assert BranchRef(s) != "HEAD";
    if s == "@" {
      AtIsWellFormed();
    }
  }

  lemma AtIsWellFormed()
    ensures WellShaped("@") && Parts("@")
  {
    assert "@"[1..] == "";
    assert Split("") == [""];
    assert ['@'] + "" == "@";
    assert Split("@") == [['@'] + Split("")[0]] + Split("")[1..];
    assert Split("@") == ["@"];
  }
}
