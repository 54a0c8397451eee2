/**
 * Picking an organization or a network by the index the operator types:
 * `items[int(entered) - 1]` with Python's indexing, None where `int()`
 * raises ValueError or the subscript raises IndexError.
 */
module Selection {
  import opened Wrappers
  import opened Text

  datatype Organization = Organization(id: string, name: string)

  datatype Network = Network(id: string, name: string)

  /** Python's `items[i]`: a negative index counts from the end; None for IndexError. */
  function PyIndex<T>(items: seq<T>, i: int): (r: Option<T>)
    ensures r.Some? <==> -|items| <= i < |items|
    ensures r.Some? && i >= 0 ==> r.value == items[i]
    ensures r.Some? && i < 0 ==> r.value == items[|items| + i]
  {
    if 0 <= i < |items| then Some(items[i])
    else if -|items| <= i < 0 then Some(items[|items| + i])
    else None
  }

  /** `items[int(entered) - 1]`, or None when that raises ValueError or IndexError. */
  function SelectByIndex<T>(items: seq<T>, entered: string): (r: Option<T>)
    ensures r.Some? <==> ParseInt(entered).Some? && -|items| < ParseInt(entered).value <= |items|
    ensures r.Some? ==> r.value == items[(ParseInt(entered).value - 1) % |items|]
  {
    match ParseInt(entered)
    case None => None
    case Some(i) =>
      PyIndexModulo(items, i - 1);
      PyIndex(items, i - 1)
  }

  /** Where Python's `items[i]` succeeds, it is the item at i modulo n. */
  lemma PyIndexModulo<T>(items: seq<T>, i: int)
    ensures PyIndex(items, i).Some? ==> PyIndex(items, i).value == items[i % |items|]
  {
    WrapIndex(i, |items|);
  }

  /** Python's index into n items is the index taken modulo n, for -n <= i < n. */
  lemma WrapIndex(i: int, n: int)
    ensures 0 <= i < n ==> i % n == i
    ensures -n <= i < 0 ==> i % n == n + i
  {
    if 0 <= i < n {
      assert i == 0 * n + i;
    } else if -n <= i < 0 {
      assert i == -1 * n + (n + i);
    }
  }

  /** `select_organization`: the chosen organization's id and the networks the dashboard lists for it. */
  function SelectOrganization(organizations: seq<Organization>, entered: string, networksOf: string -> seq<Network>)
    : (r: Option<(string, seq<Network>)>)
    ensures r.Some? <==> SelectByIndex(organizations, entered).Some?
    ensures r.Some? ==> exists k :: 0 <= k < |organizations| && r.value == (organizations[k].id, networksOf(organizations[k].id))
    ensures r.Some? ==>
      var org := SelectByIndex(organizations, entered).value;
      r.value == (org.id, networksOf(org.id))
  {
    match SelectByIndex(organizations, entered)
    case None => None
    case Some(org) => Some((org.id, networksOf(org.id)))
  }

  /** `select_network`: the chosen network's id. */
  function SelectNetwork(networks: seq<Network>, entered: string): (r: Option<string>)
    ensures r.Some? <==> SelectByIndex(networks, entered).Some?
    ensures r.Some? ==> exists k :: 0 <= k < |networks| && r.value == networks[k].id
    ensures r.Some? ==> r.value == SelectByIndex(networks, entered).value.id
  {
    match SelectByIndex(networks, entered)
    case None => None
    case Some(network) => Some(network.id)
  }

  /** The listed numbers 1..n select the n items in order (each within the digit limit of `int()`). */
  lemma SelectListedNumber<T>(items: seq<T>, k: nat)
    requires 1 <= k <= |items| && |Decimal(k)| <= MaxStrDigits
    ensures SelectByIndex(items, Decimal(k)) == Some(items[k - 1])
  {
    assert ParseInt(Decimal(k)) == Some(k as int) by { ParseDecimal(k); }
    assert PyIndex(items, k - 1) == Some(items[k - 1]);
  }

  /** "0" is accepted and selects the last item. */
  lemma SelectZeroIsLast<T>(items: seq<T>)
    requires items != []
    ensures SelectByIndex(items, "0") == Some(items[|items| - 1])
  {
    assert ParseInt("0") == Some(0) by {
      ParseDecimal(0);
      assert Decimal(0) == "0";
    }
    assert PyIndex(items, -1) == Some(items[|items| - 1]);
  }

  /** "-k" selects the item k + 1 places from the end, for k up to n - 1. */
  lemma SelectNegative<T>(items: seq<T>, k: nat)
    requires k < |items| && |Decimal(k)| <= MaxStrDigits
    ensures SelectByIndex(items, "-" + Decimal(k)) == Some(items[|items| - 1 - k])
  {
    assert ParseInt("-" + Decimal(k)) == Some(-(k as int)) by { ParseDecimal(k); }
    assert PyIndex(items, -(k as int) - 1) == Some(items[|items| - 1 - k]);
  }

  /**
   * A number past the list, or "-k" for k from n on, selects nothing:
   * IndexError, or ValueError when k has more digits than `int()` reads.
   */
  lemma SelectOutOfRange<T>(items: seq<T>, k: nat)
    ensures k > |items| ==> SelectByIndex(items, Decimal(k)).None?
    ensures k >= |items| ==> SelectByIndex(items, "-" + Decimal(k)).None?
  {
    if |Decimal(k)| <= MaxStrDigits {
      assert ParseInt(Decimal(k)) == Some(k as int) by { ParseDecimal(k); }
      assert ParseInt("-" + Decimal(k)) == Some(-(k as int)) by { ParseDecimal(k); }
    } else {
      DecimalDigitRun(k);
      AllDigitsCount(Decimal(k));
      ParseIntDigitLimit(Decimal(k));
    }
  }

  /**
   * An index with more digits than `int()` reads selects nothing, even one
   * whose value is in range, such as 4300 zeros followed by "1".
   */
  lemma SelectTooManyDigits<T>(items: seq<T>, zeros: nat)
    requires zeros >= MaxStrDigits
    ensures SelectByIndex(items, seq(zeros, _ => '0') + "1").None?
  {
    var s := seq(zeros, _ => '0') + "1";
    assert forall k :: 0 <= k < |s| ==> IsDigit(s[k]);
    AllDigitsCount(s);
    ParseIntDigitLimit(s);
  }

  /** Text that `int()` rejects selects nothing, whatever the list. */
  lemma SelectNonNumeric<T>(items: seq<T>, entered: string)
    requires ParseInt(entered).None?
    ensures SelectByIndex(items, entered).None?
  {
  }

  /**
   * `int()` rejects the empty text and a word. Only a word reaches it in the
   * tool, because the prompt asks again when the answer is empty.
   */
  lemma NonNumericExamples()
    ensures ParseInt("").None?
    ensures ParseInt("abc").None?
  {
    assert IntStrip("abc") == "abc" by { StripWithTrimmed("abc", IsIntSpace); }
  }
}
