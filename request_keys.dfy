/**
 * Request keys. A full request gets "RBGA-<n>" where n is one more than the
 * largest number found after "RBGA-" among the stored keys; a draft gets
 * "RBGA-DRAFT-<token>", whose second dash-separated part is not a number, so
 * drafts never take part in the count.
 */
module RequestKeys {

  import opened Wrappers
  import opened Decimal

  const Prefix: string := "RBGA-"
  const DraftPrefix: string := "RBGA-DRAFT-"

  /** The text up to the first '-': what `split("-")` yields first. */
  function Segment(s: string): (r: string)
    ensures r <= s && '-' !in r
    ensures r == s || s[|r|] == '-'
  {
    if s == [] || s[0] == '-' then [] else [s[0]] + Segment(s[1..])
  }

  /**
   * The number a stored key contributes to the count: for a key starting
   * "RBGA-", its second dash-separated segment read as a decimal number;
   * None when the key has another prefix or the segment is not a number.
   */
  function Suffix(key: string): Option<nat> {
    if Prefix <= key then ParseNat(Segment(key[|Prefix|..])) else None
  }

  /** The largest number among the keys, 0 when none contributes one. */
  function MaxSuffix(keys: seq<string>): nat {
    if keys == [] then 0
    else
      var m := MaxSuffix(keys[..|keys| - 1]);
      match Suffix(keys[|keys| - 1])
      case None => m
      case Some(n) => if n > m then n else m
  }

  /** The count bounds every number in use, and is one of them unless it is 0. */
  lemma {:induction false} MaxSuffixIsMaximum(keys: seq<string>)
    ensures forall i :: 0 <= i < |keys| && Suffix(keys[i]).Some? ==> Suffix(keys[i]).value <= MaxSuffix(keys)
    ensures MaxSuffix(keys) == 0 || exists i :: 0 <= i < |keys| && Suffix(keys[i]) == Some(MaxSuffix(keys))
  {
    if keys != [] {
      var front := keys[..|keys| - 1];
      MaxSuffixIsMaximum(front);
      assert forall i :: 0 <= i < |front| ==> front[i] == keys[i];
    }
  }

  /** The key a full create stores its record under. */
  function NextKey(keys: seq<string>): string {
    Prefix + NatToString(MaxSuffix(keys) + 1)
  }

  function DraftKey(token: string): string {
    DraftPrefix + token
  }

  /** Text holding no dash is its own first segment. */
  lemma {:induction false} SegmentOfDashFree(s: string)
    requires '-' !in s
    ensures Segment(s) == s
  {
    if s != [] {
      assert '-' !in s[1..];
      SegmentOfDashFree(s[1..]);
    }
  }

  /** The first segment of "<a>-<rest>" is a, for a dash-free a. */
  lemma {:induction false} SegmentBeforeDash(a: string, rest: string)
    requires '-' !in a
    ensures Segment(a + "-" + rest) == a
  {
    if a != [] {
      assert (a + "-" + rest)[1..] == a[1..] + "-" + rest;
      assert '-' !in a[1..];
      SegmentBeforeDash(a[1..], rest);
    } else {
      assert (a + "-" + rest)[0] == '-';
    }
  }

  /** A key "RBGA-<n>" contributes exactly n. */
  lemma SuffixOfNumberedKey(n: nat)
    ensures Suffix(Prefix + NatToString(n)) == Some(n)
  {
    var key := Prefix + NatToString(n);
    assert key[|Prefix|..] == NatToString(n);
    NatToStringHasNoDash(n);
    SegmentOfDashFree(NatToString(n));
    ParseNatToString(n);
  }

  /** The generated key is one above every number in use. */
  lemma NextKeySuffix(keys: seq<string>)
    ensures Suffix(NextKey(keys)) == Some(MaxSuffix(keys) + 1)
  {
    SuffixOfNumberedKey(MaxSuffix(keys) + 1);
  }

  /** Key freshness: the generated key is never one already stored. */
  lemma NextKeyIsFresh(keys: seq<string>)
    ensures NextKey(keys) !in keys
  {
    NextKeySuffix(keys);
    NumberAboveCountIsFresh(keys, NextKey(keys));
  }

  lemma MaxSuffixAppend(keys: seq<string>, key: string)
    ensures MaxSuffix(keys + [key]) ==
            match Suffix(key)
            case None => MaxSuffix(keys)
            case Some(n) => if n > MaxSuffix(keys) then n else MaxSuffix(keys)
  {
    assert (keys + [key])[..|keys|] == keys;
  }

  /** Storing the generated key raises the count by exactly one. */
  lemma NextKeyAdvances(keys: seq<string>)
    ensures MaxSuffix(keys + [NextKey(keys)]) == MaxSuffix(keys) + 1
  {
    MaxSuffixAppend(keys, NextKey(keys));
    NextKeySuffix(keys);
  }

  /** A draft key contributes nothing: its segment "DRAFT" is not a number. */
  lemma DraftKeyHasNoSuffix(token: string)
    ensures Suffix(DraftKey(token)) == None
  {
    var key := DraftKey(token);
    assert key[|Prefix|..] == "DRAFT" + "-" + token;
    SegmentBeforeDash("DRAFT", token);
    assert !IsDigit("DRAFT"[0]);
  }

  /** Storing a draft never changes the key the next full create gets. */
  lemma DraftKeepsNextKey(keys: seq<string>, token: string)
    ensures MaxSuffix(keys + [DraftKey(token)]) == MaxSuffix(keys)
    ensures NextKey(keys + [DraftKey(token)]) == NextKey(keys)
  {
    MaxSuffixAppend(keys, DraftKey(token));
    DraftKeyHasNoSuffix(token);
  }

  /** The key numbered n. */
  function NumberedKey(n: nat): string {
    Prefix + NatToString(n)
  }

  /** The keys numbered m + 1, ..., m + n, in that order. */
  function KeysAbove(m: nat, n: nat): (r: seq<string>)
    ensures |r| == n
  {
    if n == 0 then [] else KeysAbove(m, n - 1) + [NumberedKey(m + n)]
  }

  lemma {:induction false} KeysAboveRaiseCount(keys: seq<string>, n: nat)
    ensures MaxSuffix(keys + KeysAbove(MaxSuffix(keys), n)) == MaxSuffix(keys) + n
  {
    var m := MaxSuffix(keys);
    if n == 0 {
      assert KeysAbove(m, 0) == [];
      assert keys + [] == keys;
    } else {
      var k: nat := n - 1;
      KeysAboveRaiseCount(keys, k);
      RaiseCountStep(keys, m, k);
    }
  }

  /** One more numbered key raises the count by one. */
  lemma RaiseCountStep(keys: seq<string>, m: nat, n: nat)
    requires MaxSuffix(keys + KeysAbove(m, n)) == m + n
    ensures MaxSuffix(keys + KeysAbove(m, n + 1)) == m + n + 1
  {
    var earlier := KeysAbove(m, n);
    var next := NumberedKey(m + n + 1);
    var before := keys + earlier;
    assert keys + KeysAbove(m, n + 1) == before + [next] by {
      ConcatAssoc(keys, earlier, [next]);
    }
    assert Suffix(next) == Some(m + n + 1) by {
      SuffixOfNumberedKey(m + n + 1);
    }
    MaxSuffixAppend(before, next);
  }

  lemma {:induction false} KeysAboveExtend(m: nat, n: nat, i: nat)
    requires i <= n
    ensures KeysAbove(m, n)[..i] == KeysAbove(m, i)
  {
    if i < n {
      KeysAboveExtend(m, n - 1, i);
      var earlier := KeysAbove(m, n - 1);
      PrefixOfAppend(earlier, [NumberedKey(m + n)], i);
    }
  }

  lemma ConcatAssoc<T>(a: seq<T>, b: seq<T>, c: seq<T>)
    ensures a + (b + c) == (a + b) + c
  {
  }

  lemma PrefixOfAppend<T>(a: seq<T>, b: seq<T>, i: nat)
    requires i <= |a|
    ensures (a + b)[..i] == a[..i]
  {
  }

  /**
   * Repeated creates: starting from `keys`, with count m, the i-th of n
   * successive full creates gets key number m + i + 1, so the keys strictly
   * increase.
   */
  lemma SuccessiveCreates(keys: seq<string>, n: nat)
    ensures forall i :: 0 <= i < n ==>
      NextKey(keys + KeysAbove(MaxSuffix(keys), i)) == KeysAbove(MaxSuffix(keys), n)[i]
  {
    var m := MaxSuffix(keys);
    forall i | 0 <= i < n
      ensures NextKey(keys + KeysAbove(m, i)) == KeysAbove(m, n)[i]
    {
      NextKeyAfterRun(keys, i);
      KeysAboveElement(m, n, i);
    }
  }

  /** After i successive creates the next key is the one numbered m + i + 1. */
  lemma NextKeyAfterRun(keys: seq<string>, i: nat)
    ensures NextKey(keys + KeysAbove(MaxSuffix(keys), i)) == NumberedKey(MaxSuffix(keys) + i + 1)
  {
    KeysAboveRaiseCount(keys, i);
  }

  /** Key i of the run is the one numbered m + i + 1. */
  lemma KeysAboveElement(m: nat, n: nat, i: nat)
    requires i < n
    ensures KeysAbove(m, n)[i] == NumberedKey(m + i + 1)
  {
    KeysAboveExtend(m, n, i + 1);
    assert KeysAbove(m, n)[i] == KeysAbove(m, n)[..i + 1][i];
  }

  /** Repeated creates give pairwise distinct keys, none of them in use before. */
  lemma SuccessiveKeysDistinctAndFresh(keys: seq<string>, n: nat)
    ensures forall i, j :: 0 <= i < j < n ==>
      KeysAbove(MaxSuffix(keys), n)[i] != KeysAbove(MaxSuffix(keys), n)[j]
    ensures forall i :: 0 <= i < n ==> KeysAbove(MaxSuffix(keys), n)[i] !in keys
  {
    var m := MaxSuffix(keys);
    var r := KeysAbove(m, n);
    forall i | 0 <= i < n
      ensures Suffix(r[i]) == Some(m + i + 1) && r[i] !in keys
    {
      KeysAboveElement(m, n, i);
      SuffixOfNumberedKey(m + i + 1);
      NumberAboveCountIsFresh(keys, r[i]);
    }
  }

  /** A key numbered above the count is not among the keys. */
  lemma NumberAboveCountIsFresh(keys: seq<string>, key: string)
    requires Suffix(key).Some? && Suffix(key).value > MaxSuffix(keys)
    ensures key !in keys
  {
    MaxSuffixIsMaximum(keys);
  }
}
