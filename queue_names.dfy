/**
 * Pure string logic of the queue-name registry: the namespace prefix, its inverse,
 * PHP's array_unique and array_filter as the registry uses them, and the
 * normalisation pipeline that turns raw queue names into registered hook names.
 */
module QueueNames {
  import opened Wrappers

  /** Namespace token every registered queue name carries (Queue::PREFIX). */
  const QueuePrefix: string := "tasks_queue"

  /** What `Prefix` puts in front of a raw name: the token and the separator. */
  const Namespace: string := QueuePrefix + "_"

  /** Queue::prefix, i.e. sprintf('%1$s_%2$s', PREFIX, name). */
  function Prefix(name: string): string
  {
    Namespace + name
  }

  /** The inverse of `Prefix`: the raw name behind a prefixed one, if the argument is one. */
  function StripPrefix(s: string): (r: Option<string>)
    ensures r.Some? ==> Prefix(r.value) == s
  {
    if |s| >= |Namespace| && s[..|Namespace|] == Namespace then Some(s[|Namespace|..]) else None
  }

  /** A registered queue name: something `Prefix` produced. */
  predicate IsQueueName(s: string)
  {
    StripPrefix(s).Some?
  }

  lemma StripPrefixOfPrefix(name: string)
    ensures StripPrefix(Prefix(name)) == Some(name)
    ensures IsQueueName(Prefix(name))
  {
  }

  /** Different raw names never collide once prefixed. */
  lemma PrefixInjective(a: string, b: string)
    ensures Prefix(a) == Prefix(b) <==> a == b
  {
    StripPrefixOfPrefix(a);
    StripPrefixOfPrefix(b);
  }

  /** No element occurs twice. */
  predicate NoDuplicates(s: seq<string>)
  {
    forall i, j :: 0 <= i < j < |s| ==> s[i] != s[j]
  }

  /** Position of the first occurrence of `x` in `s`. */
  function FirstIndex(s: seq<string>, x: string): (i: nat)
    requires x in s
    ensures i < |s| && s[i] == x && x !in s[..i]
  {
    if s[0] == x then 0 else 1 + FirstIndex(s[1..], x)
  }

  /** Any index carrying the first occurrence of `x` is `FirstIndex(s, x)`. */
  lemma FirstIndexUnique(s: seq<string>, x: string, i: nat)
    requires i < |s| && s[i] == x && x !in s[..i]
    ensures FirstIndex(s, x) == i
  {
  }

  /**
   * PHP's array_unique on strings: keeps the first occurrence of every value and
   * drops later repetitions, preserving order.
   */
  function Unique(s: seq<string>): (r: seq<string>)
    ensures NoDuplicates(r)
    ensures forall x :: x in r <==> x in s
    ensures |r| <= |s|
    decreases |s|
  {
    if s == [] then []
    else
      var init := s[..|s| - 1];
      var u := Unique(init);
      if s[|s| - 1] in init then u else u + [s[|s| - 1]]
  }

  /** The first index in `s` of an element of `init` does not change when `s` grows. */
  lemma FirstIndexOfPrefix(s: seq<string>, n: nat, x: string)
    requires n <= |s| && x in s[..n]
    ensures FirstIndex(s, x) == FirstIndex(s[..n], x)
  {
    var k := FirstIndex(s[..n], x);
    assert s[..k] == s[..n][..k];
    FirstIndexUnique(s, x, k);
  }

  /** Unique lists the kept values in the order of their first occurrence in the input. */
  lemma {:induction false} UniqueKeepsFirstOccurrenceOrder(s: seq<string>)
    ensures forall i, j :: 0 <= i < j < |Unique(s)| ==>
      FirstIndex(s, Unique(s)[i]) < FirstIndex(s, Unique(s)[j])
    decreases |s|
  {
    if s != [] {
      var n := |s| - 1;
      var init := s[..n];
      var u := Unique(init);
      UniqueKeepsFirstOccurrenceOrder(init);
      forall x | x in u
        ensures FirstIndex(s, x) == FirstIndex(init, x) < n
      {
        FirstIndexOfPrefix(s, n, x);
      }
      if s[n] !in init {
        assert s[..n] == init;
        FirstIndexUnique(s, s[n], n);
        var r := u + [s[n]];
        assert r == Unique(s);
        forall i, j | 0 <= i < j < |r|
          ensures FirstIndex(s, r[i]) < FirstIndex(s, r[j])
        {
          assert r[i] == u[i];
          if j < |u| {
            assert r[j] == u[j];
          }
        }
      }
    }
  }

  /** A PHP string that array_filter (without callback) drops: "" and "0" are falsy. */
  predicate Falsy(s: string)
  {
    s == "" || s == "0"
  }

  lemma QueueNameNotFalsy(s: string)
    requires IsQueueName(s)
    ensures !Falsy(s)
  {
  }

  /** PHP's array_filter without callback on a list of strings. */
  function Filter(s: seq<string>): (r: seq<string>)
    ensures forall x :: x in r <==> x in s && !Falsy(x)
    ensures (forall x :: x in s ==> !Falsy(x)) ==> r == s
  {
    if s == [] then []
    else if Falsy(s[0]) then Filter(s[1..])
    else [s[0]] + Filter(s[1..])
  }

  /** Filter works element by element: it distributes over concatenation. */
  lemma {:induction false} FilterAppend(s: seq<string>, t: seq<string>)
    ensures Filter(s + t) == Filter(s) + Filter(t)
  {
    if s == [] {
      assert s + t == t;
    } else {
      assert (s + t)[1..] == s[1..] + t;
      FilterAppend(s[1..], t);
    }
  }

  /** Filter keeps a lone value unless it is falsy. */
  lemma FilterSingle(x: string)
    ensures Filter([x]) == (if Falsy(x) then [] else [x])
  {
  }

  /** Filter never makes a list longer. */
  lemma {:induction false} FilterShorter(s: seq<string>)
    ensures |Filter(s)| <= |s|
  {
    if s != [] {
      FilterShorter(s[1..]);
    }
  }

  /** array_map(prefix, s). */
  function PrefixAll(s: seq<string>): (r: seq<string>)
    ensures |r| == |s|
    ensures forall i :: 0 <= i < |s| ==> r[i] == Prefix(s[i])
  {
    seq(|s|, i requires 0 <= i < |s| => Prefix(s[i]))
  }

  lemma PrefixAllKeepsDistinct(s: seq<string>)
    requires NoDuplicates(s)
    ensures NoDuplicates(PrefixAll(s))
  {
    var p := PrefixAll(s);
    forall i, j | 0 <= i < j < |p|
      ensures p[i] != p[j]
    {
      PrefixInjective(s[i], s[j]);
    }
  }

  /** Every element of `PrefixAll(s)` is a queue name whose raw part is in `s`, and back. */
  lemma PrefixAllMembers(s: seq<string>)
    ensures forall q :: q in PrefixAll(s) ==> IsQueueName(q) && StripPrefix(q).value in s
    ensures forall name :: name in s ==> Prefix(name) in PrefixAll(s)
  {
  }

  /**
   * Queue::setQueues's pipeline array_filter(array_map(prefix, array_unique(raw))):
   * the registered hook names for a list of raw queue names.
   */
  function NormalizeQueues(raw: seq<string>): (r: seq<string>)
    ensures NoDuplicates(r)
    ensures forall name :: name in raw ==> Prefix(name) in r
    ensures forall q :: q in r ==> IsQueueName(q) && StripPrefix(q).value in raw
  {
    var u := Unique(raw);
    PrefixAllKeepsDistinct(u);
    PrefixAllMembers(u);
    var p := PrefixAll(u);
    forall q | q in p
      ensures !Falsy(q)
    {
      QueueNameNotFalsy(q);
    }
    Filter(p)
  }

  /** A raw name is registered exactly when it was listed. */
  lemma NormalizeMembership(raw: seq<string>, name: string)
    ensures Prefix(name) in NormalizeQueues(raw) <==> name in raw
  {
  }

  /** The array_filter step never drops a name: normalising is prefixing the unique names. */
  lemma NormalizeDropsNothing(raw: seq<string>)
    ensures NormalizeQueues(raw) == PrefixAll(Unique(raw))
    ensures |NormalizeQueues(raw)| == |Unique(raw)|
  {
  }

  /** Queue::getInstance's `if (!in_array($default, $queues)) $queues[] = $default;`. */
  function WithDefault(raw: seq<string>, dflt: string): (r: seq<string>)
    ensures dflt in r
    ensures forall x :: x in r <==> x in raw || x == dflt
    ensures raw <= r && |r| <= |raw| + 1
    ensures dflt in raw ==> r == raw
  {
    if dflt in raw then raw else raw + [dflt]
  }

  /** Whatever the caller lists, the prefixed default ends up registered. */
  lemma DefaultIsRegistered(raw: seq<string>, dflt: string)
    ensures Prefix(dflt) in NormalizeQueues(WithDefault(raw, dflt))
  {
  }
}
