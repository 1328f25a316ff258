/** Strings in the order of sort.Strings. */
module Order {
  /** Lexicographic order. */
  predicate Less(a: string, b: string) {
    b != "" && (a == "" || a[0] < b[0] || (a[0] == b[0] && Less(a[1..], b[1..])))
  }

  lemma {:induction false} LessTotal(a: string, b: string)
    ensures Less(a, b) || a == b || Less(b, a)
    ensures !(Less(a, b) && Less(b, a)) && !Less(a, a)
  {
    if a != "" && b != "" {
      LessTotal(a[1..], b[1..]);
      LessTotal(a[1..], a[1..]);
      assert a == [a[0]] + a[1..] && b == [b[0]] + b[1..];
    } else if a != "" {
      LessTotal(a[1..], a[1..]);
    }
  }

  lemma {:induction false} LessTransitive(a: string, b: string, c: string)
    requires Less(a, b) && Less(b, c)
    ensures Less(a, c)
  {
    if a != "" && a[0] == b[0] == c[0] {
      LessTransitive(a[1..], b[1..], c[1..]);
    }
  }

  predicate Increasing(keys: seq<string>) {
    forall i, j | 0 <= i < j < |keys| :: Less(keys[i], keys[j])
  }

  function Insert(k: string, keys: seq<string>): seq<string> {
    if keys == [] || Less(k, keys[0]) then [k] + keys else [keys[0]] + Insert(k, keys[1..])
  }

  /** sort.Strings */
  function Sort(keys: seq<string>): seq<string> {
    if keys == [] then [] else Insert(keys[0], Sort(keys[1..]))
  }

  lemma {:induction false} InsertSorts(k: string, keys: seq<string>)
    requires Increasing(keys) && k !in keys
    ensures Increasing(Insert(k, keys)) && multiset(Insert(k, keys)) == multiset(keys) + multiset{k}
  {
    hide Less;
    if keys != [] {
      LessTotal(k, keys[0]);
      if Less(k, keys[0]) {
        forall j | 0 < j < |keys| ensures Less(k, keys[j]) {
          LessTransitive(k, keys[0], keys[j]);
        }
      } else {
        assert keys == [keys[0]] + keys[1..];
        InsertSorts(k, keys[1..]);
        LeastStays(k, keys);
      }
    }
  }

  lemma LeastStays(k: string, keys: seq<string>)
    requires keys != [] && Increasing(keys) && Less(keys[0], k)
    requires multiset(Insert(k, keys[1..])) == multiset(keys[1..]) + multiset{k}
    ensures forall j | 0 <= j < |Insert(k, keys[1..])| :: Less(keys[0], Insert(k, keys[1..])[j])
  {
    hide Insert, Less;
    var rest := Insert(k, keys[1..]);
    forall j | 0 <= j < |rest| ensures Less(keys[0], rest[j]) {
      assert rest[j] in multiset(rest);
      assert rest[j] == k || rest[j] in keys[1..];
    }
  }

  lemma {:induction false} SortSorts(keys: seq<string>)
    requires forall i, j | 0 <= i < j < |keys| :: keys[i] != keys[j]
    ensures Increasing(Sort(keys)) && multiset(Sort(keys)) == multiset(keys)
  {
    if keys != [] {
      assert keys == [keys[0]] + keys[1..];
      SortSorts(keys[1..]);
      assert keys[0] !in multiset(keys[1..]);
      assert keys[0] !in Sort(keys[1..]) by {
        assert keys[0] !in multiset(Sort(keys[1..]));
      }
      InsertSorts(keys[0], Sort(keys[1..]));
    }
  }

  /** There is only one increasing list of a set of keys. */
  lemma {:induction false} IncreasingIsUnique(a: seq<string>, b: seq<string>)
    requires Increasing(a) && Increasing(b) && forall k :: k in a <==> k in b
    ensures a == b
    decreases |a|
  {
    BothEmpty(a, b);
    if a != [] {
      FirstIsLeast(a, b);
      assert a == [a[0]] + a[1..] && b == [b[0]] + b[1..];
      forall k ensures k in a[1..] <==> k in b[1..] {
        LessTotal(a[0], a[0]);
        assert a[0] !in a[1..] && b[0] !in b[1..];
        assert k in a <==> k in b;
      }
      IncreasingIsUnique(a[1..], b[1..]);
    }
  }

  lemma BothEmpty(a: seq<string>, b: seq<string>)
    requires forall k :: k in a <==> k in b
    ensures a == [] <==> b == []
  {
    assert a != [] ==> a[0] in a;
    assert b != [] ==> b[0] in b;
  }

  lemma FirstIsLeast(a: seq<string>, b: seq<string>)
    requires Increasing(a) && Increasing(b) && a != [] && b != [] && forall k :: k in a <==> k in b
    ensures a[0] == b[0]
  {
    assert a[0] in b && b[0] in a;
    var i :| 0 <= i < |b| && b[i] == a[0];
    var j :| 0 <= j < |a| && a[j] == b[0];
    LessTotal(a[0], b[0]);
  }
}
