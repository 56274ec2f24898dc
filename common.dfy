/** Shared building blocks: optional values, HTTP-style replies and the
    enumeration of an auto-increment table's keys. */
module Common {

  datatype Option<+T> = None | Some(value: T) {
    function GetOr(default: T): T {
      match this
      case Some(v) => v
      case None => default
    }
  }

  /** What a handler sends back: an HTTP status code with a payload, or an
      HTTP status code with an error message. */
  datatype Response<+T> = Success(code: int, data: T) | Error(code: int, message: string)

  /** The keys of an auto-increment table that lie in [1, n), in ascending
      order: the order in which a storage engine returns rows by primary key. */
  function KeysBelow<T>(m: map<int, T>, n: int): (r: seq<int>)
    decreases n
    ensures forall k :: k in r <==> k in m && 1 <= k < n
    ensures forall i, j :: 0 <= i < j < |r| ==> r[i] < r[j]
  {
    if n <= 1 then []
    else
      var below := KeysBelow(m, n - 1);
      assert forall i :: 0 <= i < |below| ==> below[i] < n - 1 by {
        forall i | 0 <= i < |below| ensures below[i] < n - 1 {
          assert below[i] in below;
        }
      }
      below + (if n - 1 in m then [n - 1] else [])
  }

  /** A row together with its primary key, as a SELECT of `id, ...` returns it. */
  datatype Keyed<T> = Keyed(id: int, row: T)

  /** The rows of a table under the given keys, in the order of the keys. */
  function AsListed<T>(m: map<int, T>, keys: seq<int>): (r: seq<Keyed<T>>)
    requires forall i :: 0 <= i < |keys| ==> keys[i] in m
    ensures |r| == |keys|
    ensures forall i :: 0 <= i < |r| ==> r[i] == Keyed(keys[i], m[keys[i]])
  {
    seq(|keys|, i requires 0 <= i < |keys| => Keyed(keys[i], m[keys[i]]))
  }

  /** A keyed row is listed exactly when its key is among the keys and its
      row is the one stored under that key. */
  lemma AsListedMembers<T>(m: map<int, T>, keys: seq<int>)
    requires forall i :: 0 <= i < |keys| ==> keys[i] in m
    ensures forall l :: l in AsListed(m, keys) <==> l.id in keys && l.row == m[l.id]
  {
    var rows := AsListed(m, keys);
    forall l: Keyed<T> | l.id in keys && l.row == m[l.id] ensures l in rows {
      var i :| 0 <= i < |keys| && keys[i] == l.id;
      assert rows[i] == l;
    }
  }

  /** Distinct keys give distinct rows. */
  lemma AsListedDistinct<T>(m: map<int, T>, keys: seq<int>)
    requires forall i :: 0 <= i < |keys| ==> keys[i] in m
    requires Distinct(keys)
    ensures Distinct(AsListed(m, keys))
  {
    var rows := AsListed(m, keys);
    forall i, j | 0 <= i < j < |rows| ensures rows[i] != rows[j] {
      assert rows[i].id == keys[i] && rows[j].id == keys[j];
    }
  }

  /** Every key of the table is a valid auto-increment id below `next`. */
  ghost predicate IdsBelow<T>(m: map<int, T>, next: int)
  {
    forall k :: k in m ==> 1 <= k < next
  }

  lemma KeysBelowComplete<T>(m: map<int, T>, next: int)
    requires IdsBelow(m, next)
    ensures forall k :: k in KeysBelow(m, next) <==> k in m
  {
  }

  /** The number of elements of a sequence that satisfy `p`. */
  function Count<T>(s: seq<T>, p: T -> bool): (n: nat)
    ensures n <= |s|
    ensures n == 0 <==> forall i :: 0 <= i < |s| ==> !p(s[i])
  {
    if s == [] then 0
    else Count(s[..|s| - 1], p) + (if p(s[|s| - 1]) then 1 else 0)
  }

  lemma {:induction false} CountAppend<T>(s: seq<T>, x: T, p: T -> bool)
    ensures Count(s + [x], p) == Count(s, p) + (if p(x) then 1 else 0)
  {
    assert (s + [x])[..|s + [x]| - 1] == s;
  }

  /** The elements of `s` that satisfy `p`, in their original order: a
      WHERE clause over rows read in storage order. */
  function Filter<T(!new)>(s: seq<T>, p: T -> bool): (r: seq<T>)
    ensures |r| == Count(s, p)
    ensures forall x :: x in r <==> x in s && p(x)
    ensures multiset(r) <= multiset(s)
  {
    if s == [] then []
    else
      var init := s[..|s| - 1];
      var last := s[|s| - 1];
      assert s == init + [last];
      var r := Filter(init, p) + (if p(last) then [last] else []);
      assert forall x :: x in s <==> x in init || x == last;
      r
  }

  /** No value occurs twice. */
  ghost predicate Distinct<T>(s: seq<T>)
  {
    forall i, j :: 0 <= i < j < |s| ==> s[i] != s[j]
  }

  lemma {:induction false} DistinctOccursOnce<T>(s: seq<T>, x: T)
    requires Distinct(s)
    ensures multiset(s)[x] <= 1
  {
    if s != [] {
      var init := s[..|s| - 1];
      assert s == init + [s[|s| - 1]];
      DistinctOccursOnce(init, x);
      if x == s[|s| - 1] {
        forall k | 0 <= k < |init| ensures init[k] != x {
          assert s[k] != s[|s| - 1];
        }
        assert x !in init;
      }
    }
  }

  lemma SeenOnceNotRepeated<T>(t: seq<T>, i: int, j: int)
    requires 0 <= i < j < |t|
    requires multiset(t)[t[i]] <= 1
    ensures t[i] != t[j]
  {
    assert t == t[..j] + [t[j]] + t[j + 1..];
    assert t[i] in t[..j];
  }

  /** Whatever keeps a sub-multiset of a sequence without repeats has no
      repeats either: filtering and sorting keep keys distinct. */
  lemma DistinctSubMultiset<T>(s: seq<T>, t: seq<T>)
    requires Distinct(s) && multiset(t) <= multiset(s)
    ensures Distinct(t)
  {
    forall i, j | 0 <= i < j < |t| ensures t[i] != t[j] {
      DistinctOccursOnce(s, t[i]);
      SeenOnceNotRepeated(t, i, j);
    }
  }
}
