/** Datatypes and sequence facts shared by every component model. */
module Common {

  datatype Option<+T> = None | Some(value: T)

  /** No value occurs twice. */
  ghost predicate Distinct<T>(s: seq<T>) {
    forall i, j :: 0 <= i < j < |s| ==> s[i] != s[j]
  }

  lemma DistinctAppend<T>(a: seq<T>, b: seq<T>)
    requires Distinct(a) && Distinct(b)
    requires forall x :: x in a ==> x !in b
    ensures Distinct(a + b)
  {
    forall i, j | 0 <= i < j < |a + b| ensures (a + b)[i] != (a + b)[j] {
      if i < |a| <= j {
        assert a[i] in a;
        assert (a + b)[j] == b[j - |a|];
      }
    }
  }

  function Max(a: int, b: int): int { if a < b then b else a }

  function Min(a: int, b: int): int { if a < b then a else b }

  /** A product under a name, so that proofs that do not look into it stay linear. */
  function Times(a: int, b: int): (r: int)
    ensures a >= 0 && b >= 0 ==> r >= 0
  {
    a * b
  }

  /** Truncation to 32 bits, in two's complement. */
  function ToInt32(v: int): (r: int)
    ensures -0x8000_0000 <= r < 0x8000_0000
  {
    (v + 0x8000_0000) % 0x1_0000_0000 - 0x8000_0000
  }

  datatype Size = Size(width: int, height: int)

  /** isspace: blank, tab, line feed, vertical tab, form feed, carriage return. */
  predicate IsSpace(c: char) { c == ' ' || '\t' <= c <= '\r' }

  lemma Pick<T>(keys: set<T>) returns (k: T)
    requires keys != {}
    ensures k in keys
  {
    k :| k in keys;
  }

  ghost predicate IsLeast(keys: set<int>, k: int) { k in keys && forall j :: j in keys ==> k <= j }

  lemma {:induction false} LeastExists(keys: set<int>) returns (k: int)
    requires keys != {}
    ensures IsLeast(keys, k)
  {
    k := Pick(keys);
    var rest := keys - {k};
    if rest != {} {
      var least := LeastExists(rest);
      assert forall j :: j in keys ==> j == k || j in rest;
      k := Min(k, least);
    } else {
      assert forall j :: j in keys ==> j == k || j in rest;
    }
  }

  /** The key an ordered map is iterated from. */
  ghost function Least(keys: set<int>): (k: int)
    requires keys != {}
    ensures k in keys && forall j :: j in keys ==> k <= j
  {
    assert exists k :: IsLeast(keys, k) by {
      var k := LeastExists(keys);
    }
    var k :| IsLeast(keys, k);
    k
  }
}
