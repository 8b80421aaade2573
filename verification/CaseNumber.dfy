/**
 Case numbers: a per-tenant counter behind a zero-padded decimal printer.
 CASE-{first five of the tenant id, upper case}-{at least five digits}.
 */
module CaseNumber {
  import opened Prelude
  import Text

  const PAD := 5

  function UpperChar(c: char): char {
    if 'a' <= c <= 'z' then 'A' + (c - 'a') else c
  }

  function Upper(s: string): (r: string)
    ensures |r| == |s|
  {
    seq(|s|, i requires 0 <= i < |s| => UpperChar(s[i]))
  }

  function Heading(tenant: string): string {
    "CASE-" + Upper(if |tenant| > 5 then tenant[..5] else tenant) + "-"
  }

  function Number(tenant: string, n: nat): string {
    Heading(tenant) + Text.ZeroPadded(n, PAD)
  }

  /** Whether a text could be one of the tenant's numbers. */
  predicate HasSerial(tenant: string, number: string) {
    Heading(tenant) <= number &&
    forall i :: |Heading(tenant)| <= i < |number| ==> Text.IsDigit(number[i])
  }

  /** The reader that undoes the printer. */
  function Serial(tenant: string, number: string): nat
    requires HasSerial(tenant, number)
  {
    Text.ParseDigits(number[|Heading(tenant)|..])
  }

  /** Left inverse for every n, beyond the pad width too. */
  lemma SerialOfNumber(tenant: string, n: nat)
    ensures HasSerial(tenant, Number(tenant, n))
    ensures Serial(tenant, Number(tenant, n)) == n
  {
    var tail := Text.ZeroPadded(n, PAD);
    assert Number(tenant, n)[|Heading(tenant)|..] == tail;
    Text.ParseOfZeroPadded(n, PAD);
  }

  lemma {:induction false} NoLeadingZero(n: nat)
    requires n > 0
    ensures Text.Digits(n) != "" && Text.Digits(n)[0] != '0'
  {
    if n < 10 {
    } else {
      NoLeadingZero(n / 10);
    }
  }

  /**
   A number, character by character: CASE-, at most five characters of the tenant id
   with 'a' to 'z' in upper case, a dash, and the value in decimal, padded with zeros
   to five digits and never beyond.
   */
  lemma NumberReads(tenant: string, n: nat) returns (prefix: string, tail: string)
    ensures Number(tenant, n) == "CASE-" + prefix + "-" + tail
    ensures |prefix| == if |tenant| < 5 then |tenant| else 5
    ensures forall i :: 0 <= i < |prefix| ==>
      prefix[i] == if 'a' <= tenant[i] <= 'z' then tenant[i] - ' ' else tenant[i]
    ensures (forall i :: 0 <= i < |tail| ==> '0' <= tail[i] <= '9') && Text.ParseDigits(tail) == n
    ensures if n <= 99999 then |tail| == 5 else |tail| > 5 && tail[0] != '0'
  {
    prefix := Upper(if |tenant| > 5 then tenant[..5] else tenant);
    tail := Text.ZeroPadded(n, PAD);
    Text.ParseOfZeroPadded(n, PAD);
    PadCapacity();
    Text.DigitsLength(n, PAD);
    if n > 99999 { NoLeadingZero(n); }
  }

  lemma NumberInjective(tenant: string, m: nat, n: nat)
    requires Number(tenant, m) == Number(tenant, n)
    ensures m == n
  {
    SerialOfNumber(tenant, m);
    SerialOfNumber(tenant, n);
  }

  lemma NumbersCompareAsTails(tenant: string, m: nat, n: nat)
    ensures Text.Less(Number(tenant, m), Number(tenant, n))
       <==> Text.Less(Text.ZeroPadded(m, PAD), Text.ZeroPadded(n, PAD))
  {
    Text.LessConcat(Heading(tenant), Heading(tenant), Text.ZeroPadded(m, PAD), Text.ZeroPadded(n, PAD));
    Text.LessIrreflexive(Heading(tenant));
  }

  lemma PadCapacity()
    ensures Text.Pow10(PAD) == 100000
  {
    assert Text.Pow10(1) == 10 && Text.Pow10(2) == 100;
    assert Text.Pow10(3) == 1000 && Text.Pow10(4) == 10000;
  }

  lemma NumberOrder(tenant: string, m: nat, n: nat)
    requires m <= 99999 && n <= 99999
    ensures Text.Less(Number(tenant, m), Number(tenant, n)) <==> m < n
  {
    PadCapacity();
    NumbersCompareAsTails(tenant, m, n);
    Text.PaddedIsFixed(m, PAD);
    Text.PaddedIsFixed(n, PAD);
    Text.FixedOrder(m, n, PAD);
  }

  /** The first number past the pad width sorts before its predecessor. */
  lemma OverflowSortsBackwards(tenant: string)
    ensures Text.Less(Number(tenant, 100000), Number(tenant, 99999))
  {
    NumbersCompareAsTails(tenant, 100000, 99999);
    var a, b := Text.ZeroPadded(100000, PAD), Text.ZeroPadded(99999, PAD);
    FirstDigitOfPower(5);
    PadCapacity();
    Text.PaddedIsFixed(99999, PAD);
    assert Text.Fixed(9, 1) == Text.Fixed(0, 0) + ['9'];
    assert Text.Fixed(99, 2)[0] == '9' && Text.Fixed(999, 3)[0] == '9';
    assert Text.Fixed(9999, 4)[0] == '9' && Text.Fixed(99999, 5)[0] == '9';
  }

  lemma {:induction false} FirstDigitOfPower(w: nat)
    ensures |Text.Digits(Text.Pow10(w))| == w + 1 && Text.Digits(Text.Pow10(w))[0] == '1'
  {
    if w == 0 {
    } else {
      FirstDigitOfPower(w - 1);
      assert Text.Pow10(w) / 10 == Text.Pow10(w - 1);
    }
  }

  /** A tenant's first N numbers sort in the order they were issued exactly when N fits the pad. */
  lemma IssueOrderIsStringOrder(tenant: string, N: nat)
    ensures (forall m: nat, n: nat :: 1 <= m < n <= N ==> Text.Less(Number(tenant, m), Number(tenant, n)))
       <==> N <= 99999
  {
    if N <= 99999 {
      forall m: nat, n: nat | 1 <= m < n <= N
        ensures Text.Less(Number(tenant, m), Number(tenant, n))
      {
        NumberOrder(tenant, m, n);
      }
    } else {
      OverflowSortsBackwards(tenant);
      Text.LessTotal(Number(tenant, 99999), Number(tenant, 100000));
    }
  }

  // ---- The counter ----

  /** How one attempt to take a number went: the transaction committed, or the database refused it. */
  datatype Attempt = Attempt(tenant: string, committed: bool)

  /** How many of the attempts gave the tenant a number. */
  function Granted(attempts: seq<Attempt>, tenant: string): nat {
    if attempts == [] then 0
    else
      var last := attempts[|attempts| - 1];
      Granted(attempts[..|attempts| - 1], tenant) + (if last.committed && last.tenant == tenant then 1 else 0)
  }

  class Counter {
    var counters: map<string, nat>
    ghost var attempts: seq<Attempt>

    /** A row exists exactly for the tenants that hold a number, and counts them. */
    ghost predicate Valid()
      reads this
    {
      && (forall t :: t in counters ==> counters[t] == Granted(attempts, t) && counters[t] > 0)
      && (forall t :: t !in counters ==> Granted(attempts, t) == 0)
    }

    constructor ()
      ensures Valid() && attempts == [] && counters == map[]
    {
      counters := map[];
      attempts := [];
    }

    /** The tenant's n-th success carries n, whatever was asked for other tenants in between. */
    method NextCaseNumber(tenant: string, commits: bool) returns (r: Result<string, ()>)
      requires Valid()
      modifies this
      ensures Valid()
      ensures attempts == old(attempts) + [Attempt(tenant, commits)]
      ensures !commits ==> r == Err(()) && counters == old(counters)
      ensures commits ==> r == Ok(Number(tenant, Granted(old(attempts), tenant) + 1))
      ensures commits ==> counters == old(counters)[tenant := Granted(old(attempts), tenant) + 1]
    {
      var counter := 0;
      var next := counters;
      if tenant !in next {
        next := next[tenant := 1];
      } else {
        next := next[tenant := next[tenant] + 1];
      }
      counter := next[tenant];
      ghost var before := attempts;
      attempts := attempts + [Attempt(tenant, commits)];
      assert attempts[..|attempts| - 1] == before;
      if !commits {
        return Err(());
      }
      counters := next;
      var prefix := tenant;
      if |prefix| > 5 {
        prefix := Upper(prefix[..5]);
      } else {
        prefix := Upper(prefix);
      }
      r := Ok("CASE-" + prefix + "-" + Text.ZeroPadded(counter, PAD));
    }
  }

  lemma {:induction false} GrantedGrows(attempts: seq<Attempt>, i: nat, tenant: string)
    requires i <= |attempts|
    ensures Granted(attempts[..i], tenant) <= Granted(attempts, tenant)
  {
    if i == |attempts| {
      assert attempts[..i] == attempts;
    } else {
      GrantedGrows(attempts[..|attempts| - 1], i, tenant);
      assert attempts[..|attempts| - 1][..i] == attempts[..i];
    }
  }

  /** The number the i-th attempt of a run returned, when it committed. */
  function NumberAt(attempts: seq<Attempt>, i: nat): string
    requires i < |attempts|
  {
    Number(attempts[i].tenant, Granted(attempts[..i], attempts[i].tenant) + 1)
  }

  /** Numbers handed to one tenant are pairwise distinct, in any run and beyond the pad width. */
  lemma NumbersDistinct(attempts: seq<Attempt>, i: nat, j: nat)
    requires i < j < |attempts|
    requires attempts[i].committed && attempts[j].committed
    requires attempts[i].tenant == attempts[j].tenant
    ensures NumberAt(attempts, i) != NumberAt(attempts, j)
  {
    var t := attempts[i].tenant;
    assert attempts[..j][..i + 1] == attempts[..i + 1] && attempts[..i + 1][..i] == attempts[..i];
    GrantedGrows(attempts[..j], i + 1, t);
    assert Granted(attempts[..i + 1], t) == Granted(attempts[..i], t) + 1;
    if NumberAt(attempts, i) == NumberAt(attempts, j) {
      NumberInjective(t, Granted(attempts[..i], t) + 1, Granted(attempts[..j], t) + 1);
    }
  }
}
