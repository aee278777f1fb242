/** Vocabulary shared by the component models. */
module Common {

  datatype Option<+T> = None | Some(value: T)

  /** No value occurs twice. */
  ghost predicate Distinct<T>(s: seq<T>) {
    forall i, j :: 0 <= i < j < |s| ==> s[i] != s[j]
  }

  /** The values of a sequence, order and repetition forgotten. */
  ghost function ToSet<T>(s: seq<T>): set<T> {
    set x | x in s
  }

  lemma {:induction false} ToSetAppend<T>(a: seq<T>, b: seq<T>)
    ensures ToSet(a + b) == ToSet(a) + ToSet(b)
  {
    assert forall x :: x in a + b <==> x in a || x in b;
  }

  lemma {:induction false} ToSetNext<T>(s: seq<T>, i: nat)
    requires i < |s|
    ensures ToSet(s[..i + 1]) == ToSet(s[..i]) + {s[i]}
  {
    assert s[..i + 1] == s[..i] + [s[i]];
  }

  lemma {:induction false} AppendAssoc<T>(a: seq<T>, b: seq<T>, c: seq<T>)
    ensures (a + b) + c == a + (b + c)
  {
  }

  /** A non-empty sequence is its front and its last element; so is one appended to another. */
  lemma {:induction false} SplitLast<T>(a: seq<T>, b: seq<T>)
    requires b != []
    ensures b == b[..|b| - 1] + [b[|b| - 1]]
    ensures a + b == (a + b[..|b| - 1]) + [b[|b| - 1]]
  {
  }

  /** Order kept, repetitions and empty strings dropped. */
  function Unique(values: seq<string>): seq<string> {
    if values == [] then []
    else
      var init, last := Unique(values[..|values| - 1]), values[|values| - 1];
      if last == "" || last in init then init else init + [last]
  }

  lemma {:induction false} UniqueFacts(values: seq<string>)
    ensures Distinct(Unique(values))
    ensures forall v :: v in Unique(values) <==> v in values && v != ""
  {
    if values != [] {
      UniqueFacts(values[..|values| - 1]);
      assert values == values[..|values| - 1] + [values[|values| - 1]];
    }
  }

  /** The first is met before the second. */
  ghost predicate Precedes(values: seq<string>, a: string, b: string) {
    exists k :: 0 <= k < |values| && values[k] == a && b !in values[..k + 1]
  }

  /** Each value that is not empty once, in the order in which they are first met. */
  ghost predicate IsUniqueOf(values: seq<string>, once: seq<string>) {
    && Distinct(once) && (forall v :: v in once <==> v in values && v != "")
    && forall i, j :: 0 <= i < j < |once| ==> Precedes(values, once[i], once[j])
  }

  lemma {:induction false} PrecedesLonger(values: seq<string>, a: string, b: string)
    requires values != [] && Precedes(values[..|values| - 1], a, b)
    ensures Precedes(values, a, b)
  {
    var init := values[..|values| - 1];
    var k :| 0 <= k < |init| && init[k] == a && b !in init[..k + 1];
    assert values[..k + 1] == init[..k + 1] && values[k] == a;
  }

  lemma {:induction false} UniqueIs(values: seq<string>)
    ensures IsUniqueOf(values, Unique(values))
  {
    UniqueFacts(values);
    if values != [] {
      var init, last := values[..|values| - 1], values[|values| - 1];
      UniqueIs(init);
      var before, once := Unique(init), Unique(values);
      forall i, j | 0 <= i < j < |once|
        ensures Precedes(values, once[i], once[j])
      {
        if j < |before| {
          PrecedesLonger(values, once[i], once[j]);
        } else {
          MetBeforeLast(values, once[i]);
        }
      }
    }
  }

  lemma {:induction false} MetBeforeLast(values: seq<string>, a: string)
    requires values != [] && a in values[..|values| - 1] && values[|values| - 1] !in values[..|values| - 1]
    ensures Precedes(values, a, values[|values| - 1])
  {
    var init := values[..|values| - 1];
    var k :| 0 <= k < |init| && init[k] == a;
    assert values[..k + 1] == init[..k + 1] && values[k] == a;
  }

  lemma {:induction false} PrecedesIn(a: seq<string>, b: seq<string>, x: string, y: string)
    requires Precedes(a, x, y) || (x in a && y !in a) || (y !in a && Precedes(b, x, y))
    ensures Precedes(a + b, x, y)
  {
    var all := a + b;
    if x in a && y !in a {
      var k :| 0 <= k < |a| && a[k] == x;
      assert all[k] == x && all[..k + 1] == a[..k + 1];
    } else if Precedes(a, x, y) {
      var k :| 0 <= k < |a| && a[k] == x && y !in a[..k + 1];
      assert all[k] == x && all[..k + 1] == a[..k + 1];
    } else {
      var k :| 0 <= k < |b| && b[k] == x && y !in b[..k + 1];
      var m := |a| + k;
      assert all[m] == x && all[..m + 1] == a + b[..k + 1];
    }
  }

  lemma {:induction false} OrderIsPrecedence(once: seq<string>, x: string, y: string)
    requires Distinct(once) && Precedes(once, x, y) && y in once
    ensures exists i, j :: 0 <= i < j < |once| && once[i] == x && once[j] == y
  {
    var k :| 0 <= k < |once| && once[k] == x && y !in once[..k + 1];
    forall q | 0 <= q <= k
      ensures once[q] in once[..k + 1]
    {
      assert once[..k + 1][q] == once[q];
    }
    var m :| 0 <= m < |once| && once[m] == y;
  }

  /** Two lists taken one after the other can be thinned out first. */
  lemma {:induction false} UniqueOfParts(a: seq<string>, once: seq<string>, b: seq<string>, more: seq<string>,
                                         all: seq<string>)
    requires IsUniqueOf(a, once) && IsUniqueOf(b, more) && IsUniqueOf(once + more, all)
    ensures IsUniqueOf(a + b, all)
  {
    forall i, j | 0 <= i < j < |all|
      ensures Precedes(a + b, all[i], all[j])
    {
      assert all[i] in all && all[j] in all;
      PartsInOrder(a, once, b, more, all[i], all[j]);
      PrecedesIn(a, b, all[i], all[j]);
    }
  }

  lemma {:induction false} PartsInOrder(a: seq<string>, once: seq<string>, b: seq<string>, more: seq<string>,
                                        x: string, y: string)
    requires IsUniqueOf(a, once) && IsUniqueOf(b, more) && Precedes(once + more, x, y)
    requires x != "" && y != "" && y in once + more
    ensures Precedes(a, x, y) || (x in a && y !in a) || (y !in a && Precedes(b, x, y))
  {
    var k :| 0 <= k < |once + more| && (once + more)[k] == x && y !in (once + more)[..k + 1];
    if k < |once| {
      assert once[k] == x && (once + more)[..k + 1] == once[..k + 1];
      if y in once {
        OrderIsPrecedence(once, x, y);
      }
    } else {
      var m := k - |once|;
      assert more[m] == x && (once + more)[..k + 1] == once + more[..m + 1];
      assert Precedes(more, x, y);
      OrderIsPrecedence(more, x, y);
    }
  }

  /** So can the first of them alone. */
  lemma {:induction false} UniqueOfFront(a: seq<string>, once: seq<string>, b: seq<string>, all: seq<string>)
    requires IsUniqueOf(a, once) && IsUniqueOf(once + b, all)
    ensures IsUniqueOf(a + b, all)
  {
    forall i, j | 0 <= i < j < |all|
      ensures Precedes(a + b, all[i], all[j])
    {
      assert all[i] in all && all[j] in all;
      FrontInOrder(a, once, b, all[i], all[j]);
      PrecedesIn(a, b, all[i], all[j]);
    }
  }

  lemma {:induction false} FrontInOrder(a: seq<string>, once: seq<string>, b: seq<string>, x: string, y: string)
    requires IsUniqueOf(a, once) && Precedes(once + b, x, y) && x != "" && y != ""
    ensures Precedes(a, x, y) || (x in a && y !in a) || (y !in a && Precedes(b, x, y))
  {
    var k :| 0 <= k < |once + b| && (once + b)[k] == x && y !in (once + b)[..k + 1];
    if k < |once| {
      assert once[k] == x && (once + b)[..k + 1] == once[..k + 1];
      if y in once {
        OrderIsPrecedence(once, x, y);
      }
    } else {
      var m := k - |once|;
      assert b[m] == x && (once + b)[..k + 1] == once + b[..m + 1];
      assert Precedes(b, x, y);
    }
  }

  /** A list without repetition or blank is its own thinning. */
  lemma {:induction false} UniqueOfItself(once: seq<string>)
    requires Distinct(once) && "" !in once
    ensures IsUniqueOf(once, once)
  {
    forall i, j | 0 <= i < j < |once|
      ensures Precedes(once, once[i], once[j])
    {
      assert forall m :: 0 <= m < i + 1 ==> once[..i + 1][m] == once[m];
    }
  }

  /** Adding to a thinned list what it already holds changes nothing. */
  lemma {:induction false} UniqueAbsorbs(once: seq<string>, more: seq<string>)
    requires Distinct(once) && "" !in once && forall v :: v in more ==> v == "" || v in once
    ensures Unique(once + more) == once
  {
    if more != [] {
      UniqueAbsorbs(once, more[..|more| - 1]);
      SplitLast(once, more);
      var all := once + more;
      assert all[..|all| - 1] == once + more[..|more| - 1];
    } else if once != [] {
      UniqueAbsorbs(once[..|once| - 1], []);
      assert once + more == once && once[..|once| - 1] + [] == once[..|once| - 1];
    }
  }

  /** A number in decimal digits. */
  function Decimal(n: nat): (s: string)
    ensures |s| > 0 && forall i :: 0 <= i < |s| ==> '0' <= s[i] <= '9'
  {
    if n < 10 then [('0' as int + n) as char] else Decimal(n / 10) + [('0' as int + n % 10) as char]
  }

  ghost function ValueOf(digits: string): int {
    if digits == "" then 0
    else 10 * ValueOf(digits[..|digits| - 1]) + (digits[|digits| - 1] as int - '0' as int)
  }

  /** The digits stand for the number, and there is no leading zero. */
  lemma {:induction false} DecimalMeans(n: nat)
    ensures ValueOf(Decimal(n)) == n
    ensures Decimal(n)[0] == '0' ==> n == 0
  {
    if n < 10 {
      var one := Decimal(n);
      assert one[..|one| - 1] == "";
    } else {
      DecimalMeans(n / 10);
      var all := Decimal(n);
      assert all[..|all| - 1] == Decimal(n / 10) && all[0] == Decimal(n / 10)[0];
    }
  }

  lemma {:induction false} DecimalIsInjective(m: nat, n: nat)
    requires Decimal(m) == Decimal(n)
    ensures m == n
  {
    DecimalMeans(m);
    DecimalMeans(n);
  }

  lemma {:induction false} SubsetIsSmaller<T>(a: set<T>, b: set<T>)
    requires a <= b
    ensures |a| <= |b|
  {
    if a != {} {
      var x :| x in a;
      SubsetIsSmaller(a - {x}, b - {x});
    }
  }
}
