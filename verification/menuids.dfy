/** The menu identifier allocator: category initials as a prefix, then one
    more than the largest number already used after that prefix, written with
    at least two digits. Letters and digits are ASCII. */
module MenuIds {
  import opened Base

  /** ASCII upper-casing; every other character is left as it is. */
  function Upper(c: char): char {
    if 'a' <= c <= 'z' then (c as int - 32) as char else c
  }

  /** The prefix: the upper-cased first character of each category, in order.
      A category with no characters has no initial and fails the request. */
  function Prefix(categories: seq<string>): (r: Result<string>)
    ensures r.Ok? <==> forall i :: 0 <= i < |categories| ==> |categories[i]| > 0
    ensures r.Err? ==> r.error == EmptyCategoryName
    ensures r.Ok? ==> |r.value| == |categories|
    ensures r.Ok? ==> forall i :: 0 <= i < |categories| ==> r.value[i] == Upper(categories[i][0])
  {
    if |categories| == 0 then Ok("")
    else
      var last := categories[|categories| - 1];
      match Prefix(categories[..|categories| - 1])
      case Err(e) => Err(e)
      case Ok(p) => if |last| == 0 then Err(EmptyCategoryName) else Ok(p + [Upper(last[0])])
  }

  predicate IsDigit(c: char) {
    '0' <= c <= '9'
  }

  predicate AllDigits(s: string) {
    |s| > 0 && forall i :: 0 <= i < |s| ==> IsDigit(s[i])
  }

  /** The number a run of decimal digits denotes, leading zeros allowed. */
  function DigitsValue(s: string): nat
    requires AllDigits(s)
  {
    var d := (s[|s| - 1] as int - '0' as int) as nat;
    if |s| == 1 then d else DigitsValue(s[..|s| - 1]) * 10 + d
  }

  /** The number `rest` denotes when it is one or more digits; a
      regular-expression end anchor also accepts a single newline after them. */
  function DigitsOf(rest: string): Option<nat> {
    var digits := if |rest| > 0 && rest[|rest| - 1] == '\n' then rest[..|rest| - 1] else rest;
    if AllDigits(digits) then Some(DigitsValue(digits)) else None
  }

  /** The number `id` carries after `prefix`, when `id` is `prefix` followed by digits. */
  function Suffix(id: string, prefix: string): (r: Option<nat>)
    ensures r.Some? ==> |prefix| < |id| && id[..|prefix|] == prefix
    decreases |prefix|
  {
    if |prefix| == 0 then DigitsOf(id)
    else if |id| > 0 && id[0] == prefix[0] then Suffix(id[1..], prefix[1..])
    else None
  }

  /** Matching `prefix` against `prefix + rest` reads the number in `rest`. */
  lemma {:induction false} SuffixOfConcat(prefix: string, rest: string)
    ensures Suffix(prefix + rest, prefix) == DigitsOf(rest)
    decreases |prefix|
  {
    if |prefix| > 0 {
      assert (prefix + rest)[0] == prefix[0];
      assert (prefix + rest)[1..] == prefix[1..] + rest;
      SuffixOfConcat(prefix[1..], rest);
    } else {
      assert prefix + rest == rest;
    }
  }

  /** The largest number present in `numbers`, or 0 when none is. */
  function MaxNumber(numbers: seq<Option<nat>>): (m: nat)
    ensures forall i :: 0 <= i < |numbers| && numbers[i].Some? ==> numbers[i].value <= m
    ensures m == 0 || exists i :: 0 <= i < |numbers| && numbers[i] == Some(m)
  {
    if |numbers| == 0 then 0
    else
      var prev := numbers[..|numbers| - 1];
      var m := MaxNumber(prev);
      var last := numbers[|numbers| - 1];
      assert forall i :: 0 <= i < |prev| ==> prev[i] == numbers[i];
      if last.Some? && last.value > m then last.value else m
  }

  /** The number each id carries after `prefix`, id by id. */
  function Numbers(ids: seq<string>, prefix: string): (ns: seq<Option<nat>>)
    ensures |ns| == |ids|
    ensures forall i :: 0 <= i < |ids| ==> ns[i] == Suffix(ids[i], prefix)
  {
    seq(|ids|, i requires 0 <= i < |ids| => Suffix(ids[i], prefix))
  }

  /** The largest number after `prefix` among `ids`, or 0 when none carries one. */
  function MaxSuffix(ids: seq<string>, prefix: string): nat {
    MaxNumber(Numbers(ids, prefix))
  }

  function DigitChar(d: nat): char
    requires d < 10
  {
    ('0' as int + d) as char
  }

  /** The decimal writing of `n`, without leading zeros. */
  function NatDigits(n: nat): (s: string)
    ensures AllDigits(s)
    ensures DigitsValue(s) == n
    ensures n < 10 <==> |s| == 1
    ensures n >= 10 ==> s[0] != '0'
  {
    if n < 10 then [DigitChar(n)]
    else
      var s := NatDigits(n / 10) + [DigitChar(n % 10)];
      assert s[..|s| - 1] == NatDigits(n / 10);
      s
  }

  /** Python's "{:02d}": decimal, zero-padded to a width of at least two. */
  function Pad2(n: nat): (s: string)
    ensures AllDigits(s)
    ensures DigitsValue(s) == n
    ensures |s| >= 2
    ensures n < 10 ==> |s| == 2
    ensures n >= 10 ==> s[0] != '0'
  {
    if n < 10 then
      var s := "0" + NatDigits(n);
      assert s[..1] == "0";
      s
    else NatDigits(n)
  }

  /** A prefix followed by a padded number carries that number. */
  lemma SuffixOfPadded(prefix: string, n: nat)
    ensures Suffix(prefix + Pad2(n), prefix) == Some(n)
  {
    SuffixOfConcat(prefix, Pad2(n));
    assert IsDigit(Pad2(n)[|Pad2(n)| - 1]);
  }

  /** The prefix followed by the padded successor of the largest number after it. */
  function NextId(p: string, ids: seq<string>): string {
    p + Pad2(MaxSuffix(ids, p) + 1)
  }

  /** An id carrying more than the largest number is not among the ids. */
  lemma AboveMaxIsNew(p: string, ids: seq<string>, id: string)
    requires Suffix(id, p) == Some(MaxSuffix(ids, p) + 1)
    ensures id !in ids
  {
    var ns := Numbers(ids, p);
    forall i | 0 <= i < |ids| ensures ids[i] != id {
      assert ns[i] == Suffix(ids[i], p);
    }
  }

  lemma NumbersAppend(ids: seq<string>, id: string, p: string)
    ensures Numbers(ids + [id], p) == Numbers(ids, p) + [Suffix(id, p)]
  {
    var all := ids + [id];
    assert forall i :: 0 <= i < |ids| ==> all[i] == ids[i];
    assert all[|ids|] == id;
  }

  lemma MaxNumberAppend(ns: seq<Option<nat>>, v: nat)
    ensures MaxNumber(ns + [Some(v)]) == if v > MaxNumber(ns) then v else MaxNumber(ns)
  {
    assert (ns + [Some(v)])[..|ns|] == ns;
  }

  /** The prefix followed by the padded successor of the largest number
      carries that successor, has at least two digits after the prefix, and
      differs from every id already there. */
  lemma NextIdIsNew(p: string, ids: seq<string>)
    ensures |p| + 2 <= |NextId(p, ids)|
    ensures Suffix(NextId(p, ids), p) == Some(MaxSuffix(ids, p) + 1)
    ensures NextId(p, ids) !in ids
  {
    SuffixOfPadded(p, MaxSuffix(ids, p) + 1);
    AboveMaxIsNew(p, ids, NextId(p, ids));
  }

  /** The next id is not among the ids already there. */
  lemma NextIdFresh(p: string, ids: seq<string>)
    ensures NextId(p, ids) !in ids
  {
    NextIdIsNew(p, ids);
  }

  /** A new menu id for `categories`, given the ids the catalog holds: the
      categories' initials followed by one more than the largest number any
      existing id carries after them, written "{:02d}" (NextId; NextIdIsNew
      shows it carries that number in at least two digits). It is not an
      existing id. */
  function GenerateMenuId(categories: seq<string>, ids: seq<string>): (r: Result<string>)
    ensures r.Ok? <==> Prefix(categories).Ok?
    ensures r.Err? ==> r.error == EmptyCategoryName
    ensures r.Ok? ==> r.value == NextId(Prefix(categories).value, ids)
    ensures r.Ok? ==> r.value !in ids
  {
    var prefix := Prefix(categories);
    if prefix.Err? then Err(EmptyCategoryName)
    else
      NextIdFresh(prefix.value, ids);
      Ok(NextId(prefix.value, ids))
  }

  /** Storing the next id raises the largest number for the prefix by one. */
  lemma StoredIdRaisesMax(p: string, ids: seq<string>)
    ensures MaxSuffix(ids + [NextId(p, ids)], p) == MaxSuffix(ids, p) + 1
  {
    NextIdIsNew(p, ids);
    NumbersAppend(ids, NextId(p, ids), p);
    MaxNumberAppend(Numbers(ids, p), MaxSuffix(ids, p) + 1);
  }

  /** Inserting the generated id makes the next allocation for the same
      prefix carry the following number. */
  lemma AllocationAdvances(categories: seq<string>, ids: seq<string>)
    requires Prefix(categories).Ok?
    ensures var p := Prefix(categories).value;
      MaxSuffix(ids + [GenerateMenuId(categories, ids).value], p) == MaxSuffix(ids, p) + 1
  {
    StoredIdRaisesMax(Prefix(categories).value, ids);
  }

  lemma CoffeePrefix()
    ensures Prefix(["Coffee"]) == Ok("C")
  {
    var cats: seq<string> := ["Coffee"];
    assert cats[..0] == [];
    assert Upper('C') == 'C';
    assert "" + ['C'] == "C";
  }

  lemma StoredCoffeeNumbers()
    ensures Numbers(["C01", "C02"], "C") == [Some(1), Some(2)]
  {
    SuffixOfConcat("C", "01");
    SuffixOfConcat("C", "02");
    assert "C" + "01" == "C01" && "C" + "02" == "C02";
    assert "01"[..1] == "0" && "02"[..1] == "0";
  }

  lemma StoredCoffeeMax()
    ensures MaxSuffix(["C01", "C02"], "C") == 2
  {
    StoredCoffeeNumbers();
    var ns: seq<Option<nat>> := [Some(1), Some(2)];
    assert ns[..1] == [Some(1)] && ns[..1][..0] == [];
  }

  lemma PaddedThree()
    ensures Pad2(3) == "03"
  {
    assert NatDigits(3) == "3";
  }

  /** A worked case: with "C01" and "C02" stored, the category "Coffee" gets "C03". */
  lemma ThirdCoffeeId()
    ensures GenerateMenuId(["Coffee"], ["C01", "C02"]) == Ok("C03")
  {
    CoffeePrefix();
    StoredCoffeeMax();
    PaddedThree();
    assert NextId("C", ["C01", "C02"]) == "C" + "03" == "C03";
  }
}
