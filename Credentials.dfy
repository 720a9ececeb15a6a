/** The Brightspace credentials as the sync routes store them: five fields
    joined by `':'`, read back with Python's `str.split(':')`. */
module Credentials {
  import opened Wrappers

  datatype Credentials = Credentials(appId: string, appKey: string, userId: string, userKey: string, host: string)

  datatype DecodeError = WrongFieldCount(parts: nat)

  const Sep: char := ':'

  function Fields(c: Credentials): seq<string> {
    [c.appId, c.appKey, c.userId, c.userKey, c.host]
  }

  /** The stored form `app_id:app_key:user_id:user_key:host`. */
  function Encode(c: Credentials): string {
    c.appId + ":" + c.appKey + ":" + c.userId + ":" + c.userKey + ":" + c.host
  }

  /** `sep.join(parts)`. */
  function Join(parts: seq<string>, sep: char): string {
    if |parts| == 0 then ""
    else if |parts| == 1 then parts[0]
    else Join(parts[..|parts| - 1], sep) + [sep] + parts[|parts| - 1]
  }

  /** The number of occurrences of `ch` in `s`. */
  function Count(s: string, ch: char): (n: nat)
    ensures n == 0 <==> ch !in s
  {
    if s == [] then 0
    else Count(s[..|s| - 1], ch) + (if s[|s| - 1] == ch then 1 else 0)
  }

  /** `s.split(sep)`: the pieces between separators, always at least one. */
  function Split(s: string, sep: char): (parts: seq<string>)
    ensures |parts| == Count(s, sep) + 1
    ensures forall i | 0 <= i < |parts| :: sep !in parts[i]
  {
    if s == [] then [""]
    else
      var p := Split(s[..|s| - 1], sep);
      var ch := s[|s| - 1];
      if ch == sep then p + [""]
      else p[..|p| - 1] + [p[|p| - 1] + [ch]]
  }

  /** The decoding in `sync_brightspace_tasks`: split and demand five parts. */
  function Decode(s: string): (r: Result<Credentials, DecodeError>)
    ensures r.Success? <==> Count(s, Sep) == 4
    ensures r.Success? ==> Fields(r.value) == Split(s, Sep)
  {
    var parts := Split(s, Sep);
    if |parts| != 5 then Failure(WrongFieldCount(|parts|))
    else Success(Credentials(parts[0], parts[1], parts[2], parts[3], parts[4]))
  }

  // ---------------------------------------------------------------------
  // Properties

  lemma {:induction false} CountAppend(a: string, b: string, ch: char)
    ensures Count(a + b, ch) == Count(a, ch) + Count(b, ch)
  {
    if b != [] {
      var b' := b[..|b| - 1];
      assert (a + b)[..|a + b| - 1] == a + b';
      CountAppend(a, b', ch);
    } else {
      assert a + b == a;
    }
  }

  lemma EncodeIsJoin(c: Credentials)
    ensures Encode(c) == Join(Fields(c), Sep)
  {
    var f := Fields(c);
    assert f[..2][..1] == f[..1] && f[..3][..2] == f[..2] && f[..4][..3] == f[..3] && f[..|f| - 1] == f[..4];
    assert Join(f[..1], Sep) == c.appId;
    assert Join(f[..2], Sep) == c.appId + ":" + c.appKey;
    assert Join(f[..3], Sep) == c.appId + ":" + c.appKey + ":" + c.userId;
    assert Join(f[..4], Sep) == c.appId + ":" + c.appKey + ":" + c.userId + ":" + c.userKey;
  }

  /** The encoding has four separators plus those inside the fields. */
  lemma EncodeCount(c: Credentials)
    ensures Count(Encode(c), Sep) ==
              4 + Count(c.appId, Sep) + Count(c.appKey, Sep) + Count(c.userId, Sep) + Count(c.userKey, Sep) + Count(c.host, Sep)
  {
    var s := ":";
    assert Count(s, Sep) == 1 by { assert s[..0] == []; }
    CountAppend(c.appId, s, Sep);
    CountAppend(c.appId + s, c.appKey, Sep);
    CountAppend(c.appId + s + c.appKey, s, Sep);
    CountAppend(c.appId + s + c.appKey + s, c.userId, Sep);
    CountAppend(c.appId + s + c.appKey + s + c.userId, s, Sep);
    CountAppend(c.appId + s + c.appKey + s + c.userId + s, c.userKey, Sep);
    CountAppend(c.appId + s + c.appKey + s + c.userId + s + c.userKey, s, Sep);
    CountAppend(c.appId + s + c.appKey + s + c.userId + s + c.userKey + s, c.host, Sep);
  }

  /** A string without the separator splits into itself alone. */
  lemma {:induction false} SplitNoSep(s: string, sep: char)
    requires sep !in s
    ensures Split(s, sep) == [s]
  {
    if s != [] {
      var s' := s[..|s| - 1];
      assert forall k | 0 <= k < |s'| :: s'[k] == s[k];
      SplitNoSep(s', sep);
      assert s' + [s[|s| - 1]] == s;
    }
  }

  /** Splitting after a separator starts a fresh piece. */
  lemma {:induction false} SplitAfterSep(a: string, b: string, sep: char)
    requires sep !in b
    ensures Split(a + [sep] + b, sep) == Split(a, sep) + [b]
  {
    if b == [] {
      assert a + [sep] + b == a + [sep];
      assert (a + [sep])[..|a|] == a;
    } else {
      var b' := b[..|b| - 1];
      assert forall k | 0 <= k < |b'| :: b'[k] == b[k];
      SplitAfterSep(a, b', sep);
      assert (a + [sep] + b)[..|a + [sep] + b| - 1] == a + [sep] + b';
      assert b' + [b[|b| - 1]] == b;
    }
  }

  /** Joining pieces that hold no separator and splitting gives them back. */
  lemma {:induction false} SplitJoin(parts: seq<string>, sep: char)
    requires |parts| >= 1
    requires forall i | 0 <= i < |parts| :: sep !in parts[i]
    ensures Split(Join(parts, sep), sep) == parts
  {
    if |parts| == 1 {
      SplitNoSep(parts[0], sep);
    } else {
      var init, last := parts[..|parts| - 1], parts[|parts| - 1];
      assert forall i | 0 <= i < |init| :: init[i] == parts[i];
      SplitJoin(init, sep);
      assert Join(parts, sep) == Join(init, sep) + [sep] + last;
      SplitAfterSep(Join(init, sep), last, sep);
      assert init + [last] == parts;
    }
  }

  /** Splitting and joining again gives back the string. */
  lemma {:induction false} JoinSplit(s: string, sep: char)
    ensures Join(Split(s, sep), sep) == s
  {
    if s != [] {
      var s', ch := s[..|s| - 1], s[|s| - 1];
      JoinSplit(s', sep);
      var p := Split(s', sep);
      assert s' + [ch] == s;
      if ch == sep {
        JoinNewPiece(p, sep);
      } else {
        JoinExtendLast(p, ch, sep);
      }
    }
  }

  lemma JoinNewPiece(p: seq<string>, sep: char)
    requires |p| >= 1
    ensures Join(p + [""], sep) == Join(p, sep) + [sep]
  {
    var q := p + [""];
    assert q[..|q| - 1] == p;
    assert Join(q, sep) == Join(p, sep) + [sep] + "";
  }

  lemma JoinExtendLast(p: seq<string>, ch: char, sep: char)
    requires |p| >= 1
    ensures Join(p[..|p| - 1] + [p[|p| - 1] + [ch]], sep) == Join(p, sep) + [ch]
  {
    var init, last := p[..|p| - 1], p[|p| - 1];
    var q := init + [last + [ch]];
    assert q[..|q| - 1] == init;
    if |p| > 1 {
      assert Join(p, sep) == Join(init, sep) + [sep] + last;
      assert Join(q, sep) == Join(init, sep) + [sep] + (last + [ch]);
    }
  }

  /** The stored credentials read back as the same five fields exactly when
      no field contains `':'`. */
  lemma DecodeEncode(c: Credentials)
    ensures Decode(Encode(c)) == Success(c) <==>
              Sep !in c.appId && Sep !in c.appKey && Sep !in c.userId && Sep !in c.userKey && Sep !in c.host
  {
    EncodeCount(c);
    if Sep !in c.appId && Sep !in c.appKey && Sep !in c.userId && Sep !in c.userKey && Sep !in c.host {
      EncodeIsJoin(c);
      SplitJoin(Fields(c), Sep);
    }
  }

  /** A host of the documented form `https://...` carries a `':'`, so the
      stored credentials never decode. */
  lemma UrlHostNeverDecodes(c: Credentials)
    requires |c.host| >= 8 && c.host[..8] == "https://"
    ensures Decode(Encode(c)).Failure?
    ensures Decode(Encode(c)).error.parts >= 6
  {
    assert c.host[5] == Sep;
    EncodeCount(c);
  }

  // ---------------------------------------------------------------------
  // The decoding a URL host evidently needs: `split(':', 4)`

  /** The index of the first `ch` in `s`, or `|s|` when there is none. */
  function IndexOf(s: string, ch: char): (i: nat)
    ensures i <= |s|
    ensures i < |s| ==> s[i] == ch
  {
    if s == [] then 0
    else if s[0] == ch then 0
    else 1 + IndexOf(s[1..], ch)
  }

  /** `s.split(sep, maxsplit)`: at most `maxsplit` splits, left to right,
      so the last piece keeps any further separators. */
  function SplitMax(s: string, sep: char, maxsplit: nat): (parts: seq<string>)
    ensures 1 <= |parts| <= maxsplit + 1
    decreases maxsplit
  {
    var i := IndexOf(s, sep);
    if maxsplit == 0 || i == |s| then [s]
    else [s[..i]] + SplitMax(s[i + 1..], sep, maxsplit - 1)
  }

  /** The decoding with `split(':', 4)`: the host may contain `':'`. */
  function DecodeIntended(s: string): (r: Result<Credentials, DecodeError>)
    ensures r.Success? ==> Fields(r.value) == SplitMax(s, Sep, 4)
  {
    var parts := SplitMax(s, Sep, 4);
    if |parts| != 5 then Failure(WrongFieldCount(|parts|))
    else Success(Credentials(parts[0], parts[1], parts[2], parts[3], parts[4]))
  }

  lemma {:induction false} IndexOfAfter(a: string, b: string, ch: char)
    ensures ch !in a ==> IndexOf(a + [ch] + b, ch) == |a|
    ensures ch in a ==> IndexOf(a + [ch] + b, ch) < |a|
  {
    if a != [] {
      assert (a + [ch] + b)[1..] == a[1..] + [ch] + b;
      IndexOfAfter(a[1..], b, ch);
      if a[0] != ch {
        assert ch in a[1..] <==> ch in a by {
          assert a == [a[0]] + a[1..];
        }
      }
    }
  }

  /** A field without the separator is the first piece. */
  lemma SplitMaxCons(s: string, a: string, b: string, sep: char, n: nat, rest: seq<string>)
    requires sep !in a && s == a + [sep] + b && SplitMax(b, sep, n) == rest
    ensures SplitMax(s, sep, n + 1) == [a] + rest
  {
    IndexOfAfter(a, b, sep);
    assert s[..|a|] == a && s[|a| + 1..] == b;
  }

  /** A field with the separator is cut short. */
  lemma SplitMaxCut(s: string, a: string, b: string, sep: char, n: nat)
    requires sep in a && s == a + [sep] + b
    ensures SplitMax(s, sep, n + 1)[0] != a
  {
    IndexOfAfter(a, b, sep);
    assert |s[..IndexOf(s, sep)]| < |a|;
  }

  /** The stored form from the `k`-th field on, bracketed from the right:
      `From(c, 0)` is the whole of it and `From(c, 4)` the host. */
  function From(c: Credentials, k: nat): string
    requires k <= 4
    decreases 4 - k
  {
    if k == 4 then c.host else Fields(c)[k] + [Sep] + From(c, k + 1)
  }

  lemma EncodeShape(c: Credentials)
    ensures Encode(c) == From(c, 0)
  {
    assert From(c, 3) == c.userKey + [Sep] + c.host;
  }

  /** When fields k..3 have no `':'`, `From(c, k)` splits (4 - k times) into
      the fields from k on. */
  lemma {:induction false} SplitMaxFrom(c: Credentials, k: nat)
    requires k <= 4
    requires forall j | k <= j < 4 :: Sep !in Fields(c)[j]
    ensures SplitMax(From(c, k), Sep, 4 - k) == Fields(c)[k..]
    decreases 4 - k
  {
    if k == 4 {
      assert Fields(c)[4..] == [c.host];
    } else {
      SplitMaxFrom(c, k + 1);
      SplitMaxCons(From(c, k), Fields(c)[k], From(c, k + 1), Sep, 3 - k, Fields(c)[k + 1..]);
      assert [Fields(c)[k]] + Fields(c)[k + 1..] == Fields(c)[k..];
    }
  }

  /** Fields without `':'` (except possibly the host) split back into
      themselves. */
  lemma SplitMaxClean(c: Credentials)
    requires Sep !in c.appId && Sep !in c.appKey && Sep !in c.userId && Sep !in c.userKey
    ensures SplitMax(From(c, 0), Sep, 4) == Fields(c)
  {
    SplitMaxFrom(c, 0);
  }

  lemma Differ(p: seq<string>, q: seq<string>, k: nat)
    requires k < |p| && k < |q| && p[k] != q[k]
    ensures p != q
  {
  }

  /** A `':'` inside field k, after fields without one, cuts field k short. */
  lemma {:induction false} SplitMaxFromCut(c: Credentials, i: nat, k: nat)
    requires i <= k < 4
    requires forall j | i <= j < k :: Sep !in Fields(c)[j]
    requires Sep in Fields(c)[k]
    ensures |SplitMax(From(c, i), Sep, 4 - i)| > k - i
    ensures SplitMax(From(c, i), Sep, 4 - i)[k - i] != Fields(c)[k]
    decreases k - i
  {
    if i == k {
      SplitMaxCut(From(c, k), Fields(c)[k], From(c, k + 1), Sep, 3 - k);
    } else {
      SplitMaxFromCut(c, i + 1, k);
      var rest := SplitMax(From(c, i + 1), Sep, 3 - i);
      SplitMaxCons(From(c, i), Fields(c)[i], From(c, i + 1), Sep, 3 - i, rest);
    }
  }

  lemma SplitMaxClashAt(c: Credentials, k: nat)
    requires k < 4
    requires forall j | 0 <= j < k :: Sep !in Fields(c)[j]
    requires Sep in Fields(c)[k]
    ensures SplitMax(From(c, 0), Sep, 4) != Fields(c)
  {
    SplitMaxFromCut(c, 0, k);
    Differ(SplitMax(From(c, 0), Sep, 4), Fields(c), k);
  }

  /** A `':'` inside one of the first four fields cuts that field short. */
  lemma SplitMaxClash(c: Credentials)
    requires Sep in c.appId || Sep in c.appKey || Sep in c.userId || Sep in c.userKey
    ensures SplitMax(From(c, 0), Sep, 4) != Fields(c)
  {
    if Sep in c.appId {
      SplitMaxClashAt(c, 0);
    } else if Sep in c.appKey {
      SplitMaxClashAt(c, 1);
    } else if Sep in c.userId {
      SplitMaxClashAt(c, 2);
    } else {
      SplitMaxClashAt(c, 3);
    }
  }

  /** With `split(':', 4)` the stored credentials read back as the same five
      fields exactly when none of the first four contains `':'`; the host
      may contain any number. */
  lemma DecodeIntendedEncode(c: Credentials)
    ensures DecodeIntended(Encode(c)) == Success(c) <==>
              Sep !in c.appId && Sep !in c.appKey && Sep !in c.userId && Sep !in c.userKey
  {
    EncodeShape(c);
    if Sep !in c.appId && Sep !in c.appKey && Sep !in c.userId && Sep !in c.userKey {
      SplitMaxClean(c);
    } else {
      SplitMaxClash(c);
    }
  }

  /** The documented host form now round-trips. */
  lemma UrlHostDecodesIntended(c: Credentials)
    requires Sep !in c.appId && Sep !in c.appKey && Sep !in c.userId && Sep !in c.userKey
    requires |c.host| >= 8 && c.host[..8] == "https://"
    ensures Decode(Encode(c)).Failure?
    ensures DecodeIntended(Encode(c)) == Success(c)
  {
    UrlHostNeverDecodes(c);
    DecodeIntendedEncode(c);
  }
}
