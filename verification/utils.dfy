/**
 * The two pure helpers of the utility file: the padding step of
 * `base64url_decode` and `select_item`, which turns a list of names and an
 * optional substring filter into one name.
 */
module Utils {
  import opened Base
  import opened Text
  import opened Sorting

  type Byte = b: int | 0 <= b < 256

  /** The byte `b'='`. */
  const PadByte: Byte := 61

  /**
   * The padding step of `base64url_decode`: when the length is not a multiple of
   * four, append `4 - len % 4` copies of `'='`.
   */
  function Pad(input: seq<Byte>): (r: seq<Byte>)
    ensures |r| % 4 == 0
    ensures |input| <= |r| < |input| + 4
    ensures r[..|input|] == input
    ensures forall i :: |input| <= i < |r| ==> r[i] == PadByte
  {
    var rem := |input| % 4;
    if rem > 0 then input + seq(4 - rem, _ => PadByte) else input
  }

  /** Padding an already padded input changes nothing. */
  lemma PadIdempotent(input: seq<Byte>)
    ensures Pad(Pad(input)) == Pad(input)
  {
  }

  /** The padding is the shortest `'='` suffix reaching a multiple of four. */
  lemma PadIsShortest(input: seq<Byte>, n: nat)
    requires |input| <= n && n % 4 == 0
    ensures |Pad(input)| <= n
  {
  }

  /** Python's truthiness of the optional `match` argument: `None` and `""` are false. */
  predicate Truthy(filter: Option<string>) {
    filter.Some? && filter.value != ""
  }

  /** `r` holds each item of `s` containing `m` as often as `s` does, and nothing else. */
  ghost predicate KeepsContaining(r: seq<string>, s: seq<string>, m: string) {
    forall x :: multiset(r)[x] == if Contains(x, m) then multiset(s)[x] else 0
  }

  /** `filter(lambda item: match in item, items)`. */
  function FilterContaining(s: seq<string>, m: string): (r: seq<string>)
    ensures KeepsContaining(r, s, m)
    ensures forall x :: x in r <==> x in s && Contains(x, m)
    ensures |r| <= |s|
    ensures Sorted(s) ==> Sorted(r)
  {
    if s == [] then []
    else
      var rest := FilterContaining(s[1..], m);
      var r := if Contains(s[0], m) then [s[0]] + rest else rest;
      KeepsContainingCons(s, m, rest, r);
      KeptMembers(r, s, m);
      if Contains(s[0], m) then
        SortedFilterCons(s, rest);
        r
      else r
  }

  lemma KeepsContainingCons(s: seq<string>, m: string, rest: seq<string>, r: seq<string>)
    requires s != [] && KeepsContaining(rest, s[1..], m)
    requires r == if Contains(s[0], m) then [s[0]] + rest else rest
    ensures KeepsContaining(r, s, m)
  {
    assert s == [s[0]] + s[1..];
    assert multiset(s) == multiset{s[0]} + multiset(s[1..]);
    if Contains(s[0], m) {
      assert multiset(r) == multiset{s[0]} + multiset(rest);
    }
  }

  lemma KeptMembers(r: seq<string>, s: seq<string>, m: string)
    requires KeepsContaining(r, s, m)
    ensures forall x :: x in r <==> x in s && Contains(x, m)
    ensures |r| <= |s|
  {
    forall x ensures x in r <==> x in s && Contains(x, m) {
      assert x in r <==> multiset(r)[x] > 0;
      assert x in s <==> multiset(s)[x] > 0;
    }
    var dropped := multiset(s) - multiset(r);
    assert multiset(s) == multiset(r) + dropped;
    assert |multiset(s)| == |multiset(r)| + |dropped|;
  }

  lemma SortedFilterCons(s: seq<string>, rest: seq<string>)
    requires s != [] && (forall x :: x in rest ==> x in s[1..])
    ensures Sorted(s) && Sorted(rest) ==> Sorted([s[0]] + rest)
  {
    if Sorted(s) && Sorted(rest) {
      forall j | 0 <= j < |rest| ensures StrLe(s[0], rest[j]) {
        assert rest[j] in s[1..];
        var k :| 0 <= k < |s[1..]| && s[1..][k] == rest[j];
        assert s[k + 1] == rest[j];
      }
      SortedCons(s[0], rest);
    }
  }

  datatype SelectError =
    | NotFound(filter: string)   // LookupError('Could not find item with filter ...')
    | EndOfInput                 // `input()` raised EOFError in the numbered loop
    | IndexFault                 // `items[-1]` on an empty list raised IndexError

  /**
   * The working list of `select_item`: sorted first, then (for a truthy `match`)
   * narrowed to the names containing it; an empty narrowed list is a LookupError.
   */
  function WorkingList(items: seq<string>, filter: Option<string>): (r: Result<seq<string>, SelectError>)
    ensures r.Ok? ==> Sorted(r.value)
    ensures r.Ok? ==> forall x :: x in r.value <==> x in items && (Truthy(filter) ==> Contains(x, filter.value))
    ensures r.Ok? && !Truthy(filter) ==> multiset(r.value) == multiset(items)
    ensures r.Ok? && Truthy(filter) ==> KeepsContaining(r.value, items, filter.value)
    ensures r.Err? <==> Truthy(filter) && forall x :: x in items ==> !Contains(x, filter.value)
    ensures r.Err? ==> r.error == NotFound(filter.value)
  {
    var sorted := Sort(items);
    SameElements(sorted, items);
    if Truthy(filter) then
      var narrowed := FilterContaining(sorted, filter.value);
      if |narrowed| == 0 then
        Err(NotFound(filter.value))
      else
        assert narrowed[0] in items;
        Ok(narrowed)
    else Ok(sorted)
  }

  /**
   * The working list for a truthy filter is determined: any sorted list keeping
   * exactly the matching items, each as often as `items` holds it, is the one
   * `select_item` works on.
   */
  lemma WorkingListUnique(items: seq<string>, m: string, w: seq<string>)
    requires m != "" && w != [] && Sorted(w) && KeepsContaining(w, items, m)
    ensures WorkingList(items, Some(m)) == Ok(w)
  {
    var r := WorkingList(items, Some(m));
    assert multiset(w)[w[0]] > 0;
    assert Contains(w[0], m) && multiset(items)[w[0]] > 0;
    assert w[0] in items;
    assert r.Ok?;
    assert multiset(r.value) == multiset(w) by {
      forall x ensures multiset(r.value)[x] == multiset(w)[x] { }
    }
    SortedPermutationUnique(r.value, w);
  }

  lemma SameElements(a: seq<string>, b: seq<string>)
    requires multiset(a) == multiset(b)
    ensures forall x :: x in a <==> x in b
  {
    forall x ensures x in a <==> x in b {
      assert x in a <==> x in multiset(a);
      assert x in b <==> x in multiset(b);
    }
  }

  /** What one answer to the numbered prompt does. */
  datatype EntryOutcome = Picked(name: string) | WrongValue | Fault

  /**
   * One answer `data` to the numbered prompt: a digit string `d` gives
   * `idx = d - 1`, accepted whenever `idx < len(items)`; Python's `items[-1]`
   * makes `"0"` select the last item (and fail on an empty list).
   */
  function Pick(items: seq<string>, data: string): (r: EntryOutcome)
    ensures r.Picked? ==> r.name in items
    ensures r.WrongValue? <==> !IsDigits(data) || DigitsValue(data) > |items|
    ensures r.Fault? <==> IsDigits(data) && DigitsValue(data) == 0 && items == []
  {
    if !IsDigits(data) then WrongValue
    else
      var idx := DigitsValue(data) - 1;
      if idx < |items| then
        if idx >= 0 then Picked(items[idx])
        else if items != [] then Picked(items[|items| + idx])
        else Fault
      else WrongValue
  }

  /** A number `d` with `1 <= d <= n` selects the `d`-th listed item. */
  lemma PickIsOneBased(items: seq<string>, data: string)
    requires IsDigits(data) && 1 <= DigitsValue(data) <= |items|
    ensures Pick(items, data) == Picked(items[DigitsValue(data) - 1])
  {
  }

  /** The answer `"0"` passes the bounds check as index -1 and selects the last item. */
  lemma ZeroPicksLast(items: seq<string>)
    requires items != []
    ensures Pick(items, "0") == Picked(items[|items| - 1])
  {
    assert DigitsValue("0") == DigitsValue("") * 10 + DigitOf('0');
  }

  function Resolve(e: EntryOutcome): Result<string, SelectError>
    requires !e.WrongValue?
  {
    if e.Picked? then Ok(e.name) else Err(IndexFault)
  }

  /**
   * The numbered loop: each answer in `entries` is read in turn; wrong values
   * print "Entered wrong value" and re-prompt; running out of answers is EOF.
   * `consumed` is the index of the deciding answer.
   */
  method NumberedPrompt(items: seq<string>, entries: seq<string>) returns (r: Result<string, SelectError>, consumed: nat)
    ensures consumed <= |entries|
    ensures forall j :: 0 <= j < consumed ==> Pick(items, entries[j]).WrongValue?
    ensures consumed < |entries| ==> !Pick(items, entries[consumed]).WrongValue?
    ensures consumed < |entries| ==> r == Resolve(Pick(items, entries[consumed]))
    ensures consumed == |entries| ==> r == Err(EndOfInput)
    ensures r.Ok? ==> r.value in items
  {
    consumed := 0;
    while consumed < |entries|
      invariant consumed <= |entries|
      invariant forall j :: 0 <= j < consumed ==> Pick(items, entries[j]).WrongValue?
    {
      var outcome := Pick(items, entries[consumed]);
      if !outcome.WrongValue? {
        r := Resolve(outcome);
        return;
      }
      consumed := consumed + 1;
    }
    r := Err(EndOfInput);
  }

  /**
   * `select_item(items, prompt, match)`. The oracles: whether `which fzf`
   * succeeds, the line fzf prints, and the successive answers typed at the
   * numbered prompt.
   */
  method SelectItem(items: seq<string>, filter: Option<string>, fzfInstalled: bool, fzfChoice: string, entries: seq<string>)
    returns (r: Result<string, SelectError>, consumed: nat)
    ensures (Truthy(filter) && forall x :: x in items ==> !Contains(x, filter.value)) <==> r.Err? && r.error.NotFound?
    ensures r.Err? && r.error.NotFound? ==> Truthy(filter) && r.error.filter == filter.value
    ensures forall x :: WorkingList(items, filter) == Ok([x]) ==> r == Ok(x) && consumed == 0
    ensures r.Ok? && r.value != fzfChoice ==> r.value in items
    ensures r.Ok? && !fzfInstalled ==> r.value in items
    ensures r.Ok? && r.value != fzfChoice && Truthy(filter) ==> Contains(r.value, filter.value)
    ensures r.Ok? && !fzfInstalled && Truthy(filter) ==> Contains(r.value, filter.value)
    ensures fzfInstalled ==> consumed == 0
    ensures var working := WorkingList(items, filter);
      fzfInstalled && working.Ok? && |working.value| != 1 ==> r == Ok(fzfChoice)
    ensures var working := WorkingList(items, filter);
      !fzfInstalled && working.Ok? && |working.value| != 1 ==>
        && consumed <= |entries|
        && (forall j :: 0 <= j < consumed ==> Pick(working.value, entries[j]).WrongValue?)
        && (consumed < |entries| ==> !Pick(working.value, entries[consumed]).WrongValue?)
        && (consumed < |entries| ==> r == Resolve(Pick(working.value, entries[consumed])))
        && (consumed == |entries| ==> r == Err(EndOfInput))
  {
    var working := WorkingList(items, filter);
    if working.Err? {
      return Err(working.error), 0;
    }
    var names := working.value;
    if |names| == 1 {
      return Ok(names[0]), 0;
    }
    if fzfInstalled {
      return Ok(fzfChoice), 0;
    }
    r, consumed := NumberedPrompt(names, entries);
  }
}
