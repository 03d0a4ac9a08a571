/**
 * An HTTP header list as the handler builds it: an ordered list of
 * name/value pairs in which a name may repeat (two `WWW-Authenticate`
 * lines), looked up by exact name.
 *
 * Names compare case-sensitively, while HTTP header names are
 * case-insensitive. A property such as "no `Set-Cookie` entry" therefore
 * speaks of that exact spelling; the handler's lists never write two names
 * that differ only by case, so for them the two readings agree.
 */
module Headers {

  type Header = (string, string)

  /** The values of every entry called `name`, in list order. */
  function Values(hs: seq<Header>, name: string): (vs: seq<string>)
    ensures |vs| <= |hs|
  {
    if |hs| == 0 then []
    else (if hs[0].0 == name then [hs[0].1] else []) + Values(hs[1..], name)
  }

  /** A name has no values exactly when no entry carries it. */
  lemma {:induction false} ValuesEmptyIff(hs: seq<Header>, name: string)
    ensures Values(hs, name) == [] <==> forall i :: 0 <= i < |hs| ==> hs[i].0 != name
  {
    if |hs| > 0 {
      ValuesEmptyIff(hs[1..], name);
      if hs[0].0 != name {
        forall i | 0 < i < |hs| && Values(hs, name) == []
          ensures hs[i].0 != name
        {
          assert hs[1..][i - 1] == hs[i];
        }
      }
    }
  }

  /** Looking up a name in two lists written one after the other. */
  lemma {:induction false} ValuesAppend(a: seq<Header>, b: seq<Header>, name: string)
    ensures Values(a + b, name) == Values(a, name) + Values(b, name)
  {
    if |a| > 0 {
      assert (a + b)[1..] == a[1..] + b;
      ValuesAppend(a[1..], b, name);
    } else {
      assert a + b == b;
    }
  }

  /** A name carried by exactly one entry has exactly that entry's value. */
  lemma ValuesSingle(hs: seq<Header>, name: string, i: nat)
    requires i < |hs| && hs[i].0 == name
    requires forall j :: 0 <= j < |hs| && j != i ==> hs[j].0 != name
    ensures Values(hs, name) == [hs[i].1]
  {
    var before, after := hs[..i], hs[i + 1..];
    assert hs == before + ([hs[i]] + after);
    ValuesAppend(before, [hs[i]] + after, name);
    ValuesAppend([hs[i]], after, name);
    assert forall j :: 0 <= j < |before| ==> before[j] == hs[j];
    ValuesEmptyIff(before, name);
    assert forall j :: 0 <= j < |after| ==> after[j] == hs[i + 1 + j];
    ValuesEmptyIff(after, name);
  }

  /** A name carried by exactly two entries has their two values, in list order. */
  lemma ValuesPair(hs: seq<Header>, name: string, i: nat, k: nat)
    requires i < k < |hs| && hs[i].0 == name && hs[k].0 == name
    requires forall j :: 0 <= j < |hs| && j != i && j != k ==> hs[j].0 != name
    ensures Values(hs, name) == [hs[i].1, hs[k].1]
  {
    var front, back := hs[..k], hs[k..];
    assert hs == front + back;
    ValuesAppend(front, back, name);
    ValuesSingle(front, name, i);
    ValuesSingle(back, name, 0);
  }

  /** The list with every entry called `name` dropped, the others kept in order. */
  function Without(hs: seq<Header>, name: string): (r: seq<Header>)
    ensures |r| <= |hs|
    ensures forall j :: 0 <= j < |r| ==> r[j].0 != name
  {
    if |hs| == 0 then []
    else if hs[0].0 == name then Without(hs[1..], name)
    else [hs[0]] + Without(hs[1..], name)
  }

  /** Dropping `name` leaves every other name's values as they were. */
  lemma {:induction false} WithoutKeepsOthers(hs: seq<Header>, name: string, other: string)
    requires other != name
    ensures Values(Without(hs, name), other) == Values(hs, other)
  {
    if |hs| > 0 {
      WithoutKeepsOthers(hs[1..], name, other);
      if hs[0].0 != name {
        assert ([hs[0]] + Without(hs[1..], name))[1..] == Without(hs[1..], name);
      }
    }
  }

  /** Dropping a name from two lists written one after the other. */
  lemma {:induction false} WithoutAppend(a: seq<Header>, b: seq<Header>, name: string)
    ensures Without(a + b, name) == Without(a, name) + Without(b, name)
  {
    if |a| > 0 {
      assert (a + b)[1..] == a[1..] + b;
      WithoutAppend(a[1..], b, name);
    } else {
      assert a + b == b;
    }
  }

  /** Dropping a name no entry carries changes nothing. */
  lemma {:induction false} WithoutAbsent(hs: seq<Header>, name: string)
    requires forall j :: 0 <= j < |hs| ==> hs[j].0 != name
    ensures Without(hs, name) == hs
  {
    if |hs| > 0 {
      WithoutAbsent(hs[1..], name);
      assert [hs[0]] + hs[1..] == hs;
    }
  }

  /** Dropping a name carried by exactly one entry removes just that entry. */
  lemma WithoutSingle(hs: seq<Header>, name: string, i: nat)
    requires i < |hs| && hs[i].0 == name
    requires forall j :: 0 <= j < |hs| && j != i ==> hs[j].0 != name
    ensures Without(hs, name) == hs[..i] + hs[i + 1..]
  {
    var before, after := hs[..i], hs[i + 1..];
    assert hs == before + ([hs[i]] + after);
    WithoutAppend(before, [hs[i]] + after, name);
    WithoutAppend([hs[i]], after, name);
    assert forall j :: 0 <= j < |before| ==> before[j] == hs[j];
    WithoutAbsent(before, name);
    assert forall j :: 0 <= j < |after| ==> after[j] == hs[i + 1 + j];
    WithoutAbsent(after, name);
  }

  /** No two entries share a name, as in a dictionary. */
  predicate NamesDistinct(hs: seq<Header>) {
    forall i, j :: 0 <= i < j < |hs| ==> hs[i].0 != hs[j].0
  }

  /** In a list with distinct names, a present name has exactly its one value. */
  lemma DistinctNamesSingleValue(hs: seq<Header>, i: nat)
    requires NamesDistinct(hs) && i < |hs|
    ensures Values(hs, hs[i].0) == [hs[i].1]
  {
    ValuesSingle(hs, hs[i].0, i);
  }
}
