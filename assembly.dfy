/** service.py: handle_asr_task. It fixes the local path of the downloaded
    audio, splits it, runs one transcription task per segment file,
    collects the results in submission order and concatenates them,
    sorting each result dictionary's keys by the number in the key. */
module Assembly {
  import opened Wrappers
  import opened Text
  import opened Segmenter
  import opened Transcription

  // ---------------------------------------------------------------------
  // extract_number
  // ---------------------------------------------------------------------

  /** s from its first decimal digit on (empty if it has none). */
  function SkipNonDigits(s: string): (r: string)
    ensures |r| <= |s| && r == s[|s| - |r|..]
    ensures r == [] || IsDigit(r[0])
    ensures forall i :: 0 <= i < |s| - |r| ==> !IsDigit(s[i])
  {
    if s == [] || IsDigit(s[0]) then s else SkipNonDigits(s[1..])
  }

  /** The run of decimal digits s starts with. */
  function LeadingDigits(s: string): (r: string)
    ensures r <= s && AllDigits(r)
    ensures |r| < |s| ==> !IsDigit(s[|r|])
  {
    if s != [] && IsDigit(s[0]) then [s[0]] + LeadingDigits(s[1..]) else []
  }

  /** extract_number: the value of the first run of digits in filename
      (re.search(r'(\d+)')), or 0 when there is none. */
  function ExtractNumber(filename: string): (n: nat)
    ensures (forall i :: 0 <= i < |filename| ==> !IsDigit(filename[i])) ==> n == 0
  {
    var rest := SkipNonDigits(filename);
    if rest == [] then 0 else DigitsValue(LeadingDigits(rest))
  }

  lemma {:induction false} SkipNonDigitsPrefix(prefix: string, rest: string)
    requires forall i :: 0 <= i < |prefix| ==> !IsDigit(prefix[i])
    requires rest != [] && IsDigit(rest[0])
    ensures SkipNonDigits(prefix + rest) == rest
    decreases |prefix|
  {
    var s := prefix + rest;
    if prefix != [] {
      assert s[0] == prefix[0] && !IsDigit(s[0]);
      assert s[1..] == prefix[1..] + rest;
      SkipNonDigitsPrefix(prefix[1..], rest);
      assert SkipNonDigits(s) == SkipNonDigits(s[1..]);
    } else {
      assert s == rest;
    }
  }

  lemma {:induction false} LeadingDigitsRun(digits: string, suffix: string)
    requires AllDigits(digits)
    requires suffix == [] || !IsDigit(suffix[0])
    ensures LeadingDigits(digits + suffix) == digits
    decreases |digits|
  {
    var s := digits + suffix;
    if digits != [] {
      assert s[0] == digits[0] && IsDigit(s[0]);
      assert s[1..] == digits[1..] + suffix;
      LeadingDigitsRun(digits[1..], suffix);
      assert LeadingDigits(s) == [s[0]] + LeadingDigits(s[1..]);
    } else {
      assert s == suffix;
    }
  }

  /** A name made of digit-free text, a digit run and text not starting with
      a digit yields the value of that run. */
  lemma ExtractNumberOf(prefix: string, digits: string, suffix: string)
    requires forall i :: 0 <= i < |prefix| ==> !IsDigit(prefix[i])
    requires digits != [] && AllDigits(digits)
    requires suffix == [] || !IsDigit(suffix[0])
    ensures ExtractNumber(prefix + digits + suffix) == DigitsValue(digits)
  {
    assert prefix + digits + suffix == prefix + (digits + suffix);
    SkipNonDigitsPrefix(prefix, digits + suffix);
    LeadingDigitsRun(digits, suffix);
  }

  /** The number extracted from a segment file's name is its index, whatever
      the input file's extension. */
  lemma ExtractNumberOfSegmentFile(audioFile: string, index: nat)
    ensures ExtractNumber(Basename(SegmentFile(audioFile, index))) == index
  {
    var digits, ext := NatToString(index), Extension(audioFile);
    var name := Basename(SegmentFile(audioFile, index));
    SegmentFileNaming(audioFile, index, index);
    assert name == [] + digits + ext;
    ExtractNumberOf([], digits, ext);
    DigitsValueOfNatToString(index);
  }

  // ---------------------------------------------------------------------
  // sorted(item_dict.keys(), key=extract_number)
  // ---------------------------------------------------------------------

  predicate SortedBy(keys: seq<string>, number: string -> nat)
  {
    forall i, j :: 0 <= i < j < |keys| ==> number(keys[i]) <= number(keys[j])
  }

  /** key placed before the first element with a larger number, so after
      every element with an equal one. */
  function InsertBy(sorted: seq<string>, key: string, number: string -> nat): (r: seq<string>)
    ensures multiset(r) == multiset(sorted) + multiset{key}
  {
    if sorted == [] then [key]
    else if number(sorted[0]) > number(key) then [key] + sorted
    else
      var tail := InsertBy(sorted[1..], key, number);
      assert sorted == [sorted[0]] + sorted[1..];
      [sorted[0]] + tail
  }

  /** Inserting a key no smaller than a bound into keys no smaller than it
      keeps every key at or above the bound. */
  lemma {:induction false} InsertByLowerBound(sorted: seq<string>, key: string, number: string -> nat, b: nat)
    requires forall i :: 0 <= i < |sorted| ==> b <= number(sorted[i])
    requires b <= number(key)
    ensures forall i :: 0 <= i < |InsertBy(sorted, key, number)| ==> b <= number(InsertBy(sorted, key, number)[i])
    decreases |sorted|
  {
    var r := InsertBy(sorted, key, number);
    if sorted == [] {
      assert r == [key];
    } else if number(sorted[0]) > number(key) {
      assert r == [key] + sorted;
      forall i | 0 <= i < |r|
        ensures b <= number(r[i])
      {
        if i > 0 {
          assert r[i] == sorted[i - 1];
        }
      }
    } else {
      var tail := InsertBy(sorted[1..], key, number);
      InsertByLowerBound(sorted[1..], key, number, b);
      assert r == [sorted[0]] + tail;
      forall i | 0 <= i < |r|
        ensures b <= number(r[i])
      {
        if i > 0 {
          assert r[i] == tail[i - 1] && b <= number(tail[i - 1]);
        } else {
          assert r[0] == sorted[0] && b <= number(sorted[0]);
        }
      }
    }
  }

  lemma {:induction false} InsertBySorted(sorted: seq<string>, key: string, number: string -> nat)
    requires SortedBy(sorted, number)
    ensures SortedBy(InsertBy(sorted, key, number), number)
    decreases |sorted|
  {
    if sorted == [] {
      assert InsertBy(sorted, key, number) == [key];
    } else if number(sorted[0]) > number(key) {
      var r := [key] + sorted;
      assert InsertBy(sorted, key, number) == r;
      forall i, j | 0 <= i < j < |r|
        ensures number(r[i]) <= number(r[j])
      {
        assert r[j] == sorted[j - 1];
        if i > 0 {
          assert r[i] == sorted[i - 1];
        } else {
          assert number(sorted[0]) <= number(sorted[j - 1]);
        }
      }
    } else {
      var tail := InsertBy(sorted[1..], key, number);
      InsertBySorted(sorted[1..], key, number);
      InsertByLowerBound(sorted[1..], key, number, number(sorted[0]));
      var r := [sorted[0]] + tail;
      assert InsertBy(sorted, key, number) == r;
      forall i, j | 0 <= i < j < |r|
        ensures number(r[i]) <= number(r[j])
      {
        assert r[j] == tail[j - 1];
        if i > 0 {
          assert r[i] == tail[i - 1];
        }
      }
    }
  }

  /** sorted(keys, key=number): the keys in ascending number, as Python's
      stable sort leaves them. */
  function SortedKeys(keys: seq<string>, number: string -> nat): (r: seq<string>)
    ensures multiset(r) == multiset(keys)
    ensures SortedBy(r, number)
  {
    if keys == [] then []
    else
      var rest := SortedKeys(keys[..|keys| - 1], number);
      assert keys == keys[..|keys| - 1] + [keys[|keys| - 1]];
      InsertBySorted(rest, keys[|keys| - 1], number);
      InsertBy(rest, keys[|keys| - 1], number)
  }

  /** The keys whose number is v, in their order. */
  function WithNumber(keys: seq<string>, number: string -> nat, v: nat): seq<string>
  {
    if keys == [] then []
    else (if number(keys[0]) == v then [keys[0]] else []) + WithNumber(keys[1..], number, v)
  }

  lemma {:induction false} WithNumberAppend(a: seq<string>, b: seq<string>, number: string -> nat, v: nat)
    ensures WithNumber(a + b, number, v) == WithNumber(a, number, v) + WithNumber(b, number, v)
    decreases |a|
  {
    if a == [] {
      assert a + b == b;
    } else {
      var x, rest := a[0], a[1..];
      assert a == [x] + rest;
      assert a + b == [x] + (rest + b);
      WithNumberAppend(rest, b, number, v);
      WithNumberCons(x, rest + b, number, v);
      WithNumberCons(x, rest, number, v);
      AppendAssoc(if number(x) == v then [x] else [], WithNumber(rest, number, v), WithNumber(b, number, v));
    }
  }

  lemma {:induction false} WithNumberAbove(keys: seq<string>, number: string -> nat, v: nat)
    requires forall i :: 0 <= i < |keys| ==> number(keys[i]) > v
    ensures WithNumber(keys, number, v) == []
    decreases |keys|
  {
    if keys != [] {
      WithNumberAbove(keys[1..], number, v);
    }
  }

  lemma SortedByTail(sorted: seq<string>, number: string -> nat)
    requires sorted != [] && SortedBy(sorted, number)
    ensures SortedBy(sorted[1..], number)
    ensures forall i :: 0 <= i < |sorted| ==> number(sorted[0]) <= number(sorted[i])
  {
    forall i, j | 0 <= i < j < |sorted[1..]|
      ensures number(sorted[1..][i]) <= number(sorted[1..][j])
    {
      assert sorted[1..][i] == sorted[i + 1] && sorted[1..][j] == sorted[j + 1];
    }
  }

  /** The inserted key goes first: the keys after it all have larger numbers. */
  lemma WithNumberInsertFront(sorted: seq<string>, key: string, number: string -> nat, v: nat)
    requires SortedBy(sorted, number) && sorted != [] && number(sorted[0]) > number(key)
    ensures WithNumber(InsertBy(sorted, key, number), number, v) ==
            WithNumber(sorted, number, v) + (if number(key) == v then [key] else [])
  {
    var r := InsertBy(sorted, key, number);
    assert r == [key] + sorted;
    assert r[1..] == sorted;
    if number(key) == v {
      SortedByTail(sorted, number);
      WithNumberAbove(sorted, number, v);
    }
  }

  /** The keys with number v in a list that starts with x. */
  lemma WithNumberCons(x: string, rest: seq<string>, number: string -> nat, v: nat)
    ensures WithNumber([x] + rest, number, v) ==
            (if number(x) == v then [x] else []) + WithNumber(rest, number, v)
  {
    assert ([x] + rest)[0] == x;
    assert ([x] + rest)[1..] == rest;
  }

  /** The inserted key goes after the first key. */
  lemma WithNumberInsertLater(sorted: seq<string>, key: string, number: string -> nat, v: nat)
    requires sorted != [] && number(sorted[0]) <= number(key)
    requires WithNumber(InsertBy(sorted[1..], key, number), number, v) ==
             WithNumber(sorted[1..], number, v) + (if number(key) == v then [key] else [])
    ensures WithNumber(InsertBy(sorted, key, number), number, v) ==
            WithNumber(sorted, number, v) + (if number(key) == v then [key] else [])
  {
    var x, rest := sorted[0], sorted[1..];
    var head: seq<string> := if number(x) == v then [x] else [];
    var mine: seq<string> := if number(key) == v then [key] else [];
    var tail := InsertBy(rest, key, number);
    assert InsertBy(sorted, key, number) == [x] + tail;
    WithNumberCons(x, tail, number, v);
    assert sorted == [x] + rest;
    WithNumberCons(x, rest, number, v);
    Regroup(WithNumber(InsertBy(sorted, key, number), number, v), WithNumber(tail, number, v),
            WithNumber(rest, number, v), WithNumber(sorted, number, v), head, mine);
  }

  lemma Regroup<T>(whole: seq<T>, tail: seq<T>, rest: seq<T>, orig: seq<T>, head: seq<T>, mine: seq<T>)
    requires whole == head + tail && tail == rest + mine && orig == head + rest
    ensures whole == orig + mine
  {
  }

  lemma {:induction false} WithNumberInsert(sorted: seq<string>, key: string, number: string -> nat, v: nat)
    requires SortedBy(sorted, number)
    ensures WithNumber(InsertBy(sorted, key, number), number, v) ==
            WithNumber(sorted, number, v) + (if number(key) == v then [key] else [])
    decreases |sorted|
  {
    if sorted == [] {
      assert InsertBy(sorted, key, number) == [key];
    } else if number(sorted[0]) > number(key) {
      WithNumberInsertFront(sorted, key, number, v);
    } else {
      SortedByTail(sorted, number);
      WithNumberInsert(sorted[1..], key, number, v);
      WithNumberInsertLater(sorted, key, number, v);
    }
  }

  /** The sort is stable: the keys sharing a number keep their order. */
  lemma {:induction false} SortedKeysStable(keys: seq<string>, number: string -> nat, v: nat)
    ensures WithNumber(SortedKeys(keys, number), number, v) == WithNumber(keys, number, v)
    decreases |keys|
  {
    if keys != [] {
      var n := |keys| - 1;
      SortedKeysStable(keys[..n], number, v);
      WithNumberInsert(SortedKeys(keys[..n], number), keys[n], number, v);
      WithNumberLast(keys, number, v);
    }
  }

  /** The keys with number v in a non-empty list, split off at its last key. */
  lemma WithNumberLast(keys: seq<string>, number: string -> nat, v: nat)
    requires keys != []
    ensures WithNumber(keys, number, v) ==
            WithNumber(keys[..|keys| - 1], number, v) +
            (if number(keys[|keys| - 1]) == v then [keys[|keys| - 1]] else [])
  {
    var n := |keys| - 1;
    assert keys == keys[..n] + [keys[n]];
    WithNumberAppend(keys[..n], [keys[n]], number, v);
    assert [keys[n]][1..] == [];
  }

  // ---------------------------------------------------------------------
  // sort_and_concat_numeric_keys
  // ---------------------------------------------------------------------

  /** One task's result: a dictionary with its keys in insertion order. */
  datatype ResultDict = ResultDict(keys: seq<string>, values: map<string, seq<Fragment>>)
  {
    /** keys lists each key of values exactly once. */
    ghost predicate Valid()
    {
      && KeysIn(keys, values)
      && (forall k :: k in values ==> k in keys)
      && (forall i, j :: 0 <= i < j < |keys| ==> keys[i] != keys[j])
    }
  }

  /** {key: value} */
  function OneKeyDict(key: string, value: seq<Fragment>): (d: ResultDict)
    ensures d.Valid()
  {
    ResultDict([key], map[key := value])
  }

  predicate KeysIn(keys: seq<string>, values: map<string, seq<Fragment>>)
  {
    forall k :: k in keys ==> k in values
  }

  /** The values of keys, in that order, concatenated. */
  function ConcatValues(keys: seq<string>, values: map<string, seq<Fragment>>): seq<Fragment>
    requires KeysIn(keys, values)
  {
    if keys == [] then [] else ConcatValues(keys[..|keys| - 1], values) + values[keys[|keys| - 1]]
  }

  lemma {:induction false} ConcatValuesCons(key: string, keys: seq<string>, values: map<string, seq<Fragment>>)
    requires key in values && KeysIn(keys, values)
    ensures KeysIn([key] + keys, values)
    ensures ConcatValues([key] + keys, values) == values[key] + ConcatValues(keys, values)
    decreases |keys|
  {
    if keys != [] {
      var n := |keys| - 1;
      ConcatValuesCons(key, keys[..n], values);
      assert ([key] + keys)[..|keys|] == [key] + keys[..n];
    } else {
      assert [key] + keys == [key];
    }
  }

  /** Keys drawn from a dictionary's keys are all in it. */
  lemma KeysInSubMultiset(keys: seq<string>, from: seq<string>, values: map<string, seq<Fragment>>)
    requires multiset(keys) <= multiset(from) && KeysIn(from, values)
    ensures KeysIn(keys, values)
  {
    forall k | k in keys
      ensures k in values
    {
      assert k in multiset(keys);
      assert k in from;
    }
  }

  lemma {:induction false} ConcatValuesInsert(sorted: seq<string>, key: string, values: map<string, seq<Fragment>>,
                                              number: string -> nat)
    requires key in values && KeysIn(sorted, values) && KeysIn(InsertBy(sorted, key, number), values)
    ensures multiset(ConcatValues(InsertBy(sorted, key, number), values)) ==
            multiset(ConcatValues(sorted, values)) + multiset(values[key])
    decreases |sorted|
  {
    if sorted == [] {
      assert InsertBy(sorted, key, number) == [key];
      assert [key][..0] == [];
    } else if number(sorted[0]) > number(key) {
      assert InsertBy(sorted, key, number) == [key] + sorted;
      ConcatValuesCons(key, sorted, values);
    } else {
      var tail := InsertBy(sorted[1..], key, number);
      assert InsertBy(sorted, key, number) == [sorted[0]] + tail;
      assert [sorted[0]] + sorted[1..] == sorted;
      KeysInSubMultiset(sorted[1..], sorted, values);
      KeysInSubMultiset(tail, InsertBy(sorted, key, number), values);
      ConcatValuesInsert(sorted[1..], key, values, number);
      ConcatValuesCons(sorted[0], tail, values);
      assert [sorted[0]] + sorted[1..] == sorted;
      ConcatValuesCons(sorted[0], sorted[1..], values);
    }
  }

  /** Concatenating in sorted key order loses and repeats nothing: the
      same fragments as in insertion order. */
  lemma {:induction false} ConcatSortedPermutation(keys: seq<string>, values: map<string, seq<Fragment>>,
                                                   number: string -> nat)
    requires KeysIn(keys, values)
    ensures KeysIn(SortedKeys(keys, number), values)
    ensures multiset(ConcatValues(SortedKeys(keys, number), values)) == multiset(ConcatValues(keys, values))
    decreases |keys|
  {
    KeysInSubMultiset(SortedKeys(keys, number), keys, values);
    if keys != [] {
      var n := |keys| - 1;
      KeysInSubMultiset(keys[..n], keys, values);
      ConcatSortedPermutation(keys[..n], values, number);
      ConcatValuesInsert(SortedKeys(keys[..n], number), keys[n], values, number);
    }
  }

  /** One dictionary's contribution: its values in ascending key number. */
  function DictConcat(d: ResultDict): seq<Fragment>
    requires d.Valid()
  {
    var sorted := SortedKeys(d.keys, ExtractNumber);
    KeysInSubMultiset(sorted, d.keys, d.values);
    ConcatValues(sorted, d.values)
  }

  /** The whole output: each dictionary's contribution, in list order. */
  function ConcatAll(results: seq<ResultDict>): seq<Fragment>
    requires forall i :: 0 <= i < |results| ==> results[i].Valid()
  {
    if results == [] then []
    else ConcatAll(results[..|results| - 1]) + DictConcat(results[|results| - 1])
  }

  /** One more dictionary contributes its sorted values at the end. */
  lemma ConcatAllAppendOne(init: seq<ResultDict>, last: ResultDict)
    requires forall i :: 0 <= i < |init| ==> init[i].Valid()
    requires last.Valid()
    ensures forall i :: 0 <= i < |init + [last]| ==> (init + [last])[i].Valid()
    ensures ConcatAll(init + [last]) == ConcatAll(init) + DictConcat(last)
  {
    var rs := init + [last];
    assert forall i :: 0 <= i < |rs| ==> rs[i] == if i < |init| then init[i] else last;
    assert rs[..|init|] == init;
  }

  /** The values of each dictionary in insertion order, concatenated. */
  function InsertionOrderConcat(results: seq<ResultDict>): seq<Fragment>
    requires forall i :: 0 <= i < |results| ==> results[i].Valid()
  {
    if results == [] then []
    else
      var d := results[|results| - 1];
      assert d.Valid();
      InsertionOrderConcat(results[..|results| - 1]) + ConcatValues(d.keys, d.values)
  }

  /** Every fragment of every value appears in the output exactly as often
      as in the dictionaries, so the output length is the sum of the value
      lengths. */
  lemma {:induction false} ConcatAllPermutation(results: seq<ResultDict>)
    requires forall i :: 0 <= i < |results| ==> results[i].Valid()
    ensures multiset(ConcatAll(results)) == multiset(InsertionOrderConcat(results))
    ensures |ConcatAll(results)| == |InsertionOrderConcat(results)|
    decreases |results|
  {
    if results != [] {
      var n := |results| - 1;
      var d := results[n];
      assert d.Valid();
      ConcatAllPermutation(results[..n]);
      ConcatSortedPermutation(d.keys, d.values, ExtractNumber);
      assert ConcatAll(results) == ConcatAll(results[..n]) + DictConcat(d);
      assert InsertionOrderConcat(results) == InsertionOrderConcat(results[..n]) + ConcatValues(d.keys, d.values);
    }
    assert |multiset(ConcatAll(results))| == |ConcatAll(results)|;
    assert |multiset(InsertionOrderConcat(results))| == |InsertionOrderConcat(results)|;
  }

  lemma SortedKeysSingleton(key: string, number: string -> nat)
    ensures SortedKeys([key], number) == [key]
  {
    assert [key][..0] == [];
  }

  /** A one-key dictionary contributes its value. */
  lemma OneKeyDictConcat(key: string, value: seq<Fragment>)
    ensures DictConcat(OneKeyDict(key, value)) == value
  {
    var d := OneKeyDict(key, value);
    SortedKeysSingleton(key, ExtractNumber);
    assert SortedKeys(d.keys, ExtractNumber) == [key];
    assert [key][..0] == [];
    assert ConcatValues([key], d.values) == value;
  }

  /** The dictionaries {keys[i]: values[i]}, in order. */
  function OneKeyDicts(keys: seq<string>, values: seq<seq<Fragment>>): (r: seq<ResultDict>)
    requires |keys| == |values|
    ensures |r| == |keys|
    ensures forall i :: 0 <= i < |r| ==> r[i] == OneKeyDict(keys[i], values[i])
  {
    if keys == [] then []
    else
      var n := |keys| - 1;
      OneKeyDicts(keys[..n], values[..n]) + [OneKeyDict(keys[n], values[n])]
  }

  lemma OneKeyDictsSnoc(keys: seq<string>, values: seq<seq<Fragment>>)
    requires |keys| == |values| && keys != []
    ensures ConcatAll(OneKeyDicts(keys, values)) ==
            ConcatAll(OneKeyDicts(keys[..|keys| - 1], values[..|keys| - 1])) + values[|keys| - 1]
  {
    var n := |keys| - 1;
    var init, last := OneKeyDicts(keys[..n], values[..n]), OneKeyDict(keys[n], values[n]);
    assert OneKeyDicts(keys, values) == init + [last];
    ConcatAllAppendOne(init, last);
    OneKeyDictConcat(keys[n], values[n]);
  }

  /** With one-key dictionaries the per-dictionary sort is a no-op and the
      output is the values in list order. */
  lemma {:induction false} ConcatAllOneKey(keys: seq<string>, values: seq<seq<Fragment>>)
    requires |keys| == |values|
    ensures ConcatAll(OneKeyDicts(keys, values)) == Flatten(values)
    decreases |keys|
  {
    if keys != [] {
      var n := |keys| - 1;
      ConcatAllOneKey(keys[..n], values[..n]);
      OneKeyDictsSnoc(keys, values);
    }
  }

  /** for key in sorted_keys: result.extend(item_dict[key]) */
  method ExtendWithValues(result: seq<Fragment>, keys: seq<string>, values: map<string, seq<Fragment>>)
    returns (r: seq<Fragment>)
    requires KeysIn(keys, values)
    ensures r == result + ConcatValues(keys, values)
  {
    r := result;
    for j := 0 to |keys|
      invariant KeysIn(keys[..j], values)
      invariant r == result + ConcatValues(keys[..j], values)
    {
      assert keys[..j + 1][..j] == keys[..j];
      r := r + values[keys[j]];
    }
    assert keys[..|keys|] == keys;
  }

  /** sort_and_concat_numeric_keys: for each result dictionary in order,
      extend the output with its values in ascending key number. */
  method SortAndConcatNumericKeys(results: seq<ResultDict>) returns (result: seq<Fragment>)
    requires forall i :: 0 <= i < |results| ==> results[i].Valid()
    ensures result == ConcatAll(results)
  {
    result := [];
    for i := 0 to |results|
      invariant result == ConcatAll(results[..i])
    {
      var itemDict := results[i];
      var sortedKeys := SortedKeys(itemDict.keys, ExtractNumber);
      KeysInSubMultiset(sortedKeys, itemDict.keys, itemDict.values);
      result := ExtendWithValues(result, sortedKeys, itemDict.values);
      ConcatAllPrefix(results, i);
    }
    assert results[..|results|] == results;
  }

  /** One more dictionary of the list extends the output by its sorted values. */
  lemma ConcatAllPrefix(results: seq<ResultDict>, i: nat)
    requires i < |results|
    requires forall k :: 0 <= k < |results| ==> results[k].Valid()
    ensures ConcatAll(results[..i + 1]) == ConcatAll(results[..i]) + DictConcat(results[i])
  {
    assert results[..i + 1] == results[..i] + [results[i]];
    ConcatAllAppendOne(results[..i], results[i]);
  }

  // ---------------------------------------------------------------------
  // Collecting results in submission order
  // ---------------------------------------------------------------------

  /** [future.result() for future in futures]: the tasks finish in
      completionOrder (every task, each index below the number of tasks), and the
      results are then read future by future. */
  method GatherResults(outputs: seq<ResultDict>, completionOrder: seq<nat>) returns (results: seq<ResultDict>)
    requires forall j :: 0 <= j < |completionOrder| ==> completionOrder[j] < |outputs|
    requires forall i :: 0 <= i < |outputs| ==> i in completionOrder
    ensures results == outputs
  {
    var finished: map<nat, ResultDict> := map[];
    for j := 0 to |completionOrder|
      invariant forall i :: i in finished ==> i < |outputs| && finished[i] == outputs[i]
      invariant forall m :: 0 <= m < j ==> completionOrder[m] in finished
    {
      var task := completionOrder[j];
      finished := finished[task := outputs[task]];
    }
    results := [];
    for i := 0 to |outputs|
      invariant results == outputs[..i]
    {
      assert i in completionOrder;
      results := results + [finished[i]];
    }
  }

  // ---------------------------------------------------------------------
  // download_audio
  // ---------------------------------------------------------------------

  /** f'tmp/{md5}/input.mp3' */
  function AudioPath(digest: string): string
  {
    "tmp/" + digest + "/input.mp3"
  }

  /** Distinct digests give distinct paths, and every path is an input.mp3. */
  lemma AudioPathInjective(a: string, b: string)
    ensures AudioPath(a) == AudioPath(b) <==> a == b
    ensures Basename(AudioPath(a)) == "input.mp3"
  {
    if AudioPath(a) == AudioPath(b) {
      assert |a| == |b|;
      assert a == AudioPath(a)[4..4 + |a|];
      assert b == AudioPath(b)[4..4 + |b|];
    }
    assert AudioPath(a) == ("tmp/" + a) + "/" + "input.mp3";
    BasenameOfJoin("tmp/" + a, "input.mp3");
  }

  /** The k-th segment of a downloaded file is tmp/{digest}/segments/{k}.mp3:
      the input's directory is the digest's folder and its suffix ".mp3". */
  lemma AudioSegmentFile(digest: string, k: nat)
    requires digest != [] && forall j :: 0 <= j < |digest| ==> digest[j] != '/'
    ensures SegmentFile(AudioPath(digest), k) == "tmp/" + digest + "/segments/" + NatToString(k) + ".mp3"
  {
    AudioDirname(digest);
    AudioExtension(digest);
    assert SegmentFile(AudioPath(digest), k) == "tmp/" + digest + "/segments" + "/" + NatToString(k) + ".mp3";
  }

  lemma AudioDirname(digest: string)
    requires digest != [] && forall j :: 0 <= j < |digest| ==> digest[j] != '/'
    ensures Dirname(AudioPath(digest)) == "tmp/" + digest
  {
    var dir := "tmp/" + digest;
    assert dir[|dir| - 1] == digest[|digest| - 1];
    assert AudioPath(digest) == dir + "/" + "input.mp3";
    DirnameOfJoin(dir, "input.mp3");
  }

  lemma AudioExtension(digest: string)
    ensures Extension(AudioPath(digest)) == ".mp3"
  {
    var stem := "tmp/" + digest + "/input";
    assert AudioPath(digest) == stem + "." + "mp3";
    assert stem[|stem| - 1] == 't';
    ExtensionOfName(stem, "mp3");
  }

  /** download_audio, with the MD5 hex digest and the file-system test as
      parameters; download is whether ffmpeg is asked to fetch the file. */
  method DownloadAudio(audioUrl: string, md5: string -> string, exists_: string -> bool)
    returns (audioFile: string, download: bool)
    ensures audioFile == AudioPath(md5(audioUrl))
    ensures download <==> !exists_(AudioPath(md5(audioUrl)))
  {
    var digest := md5(audioUrl);
    audioFile := AudioPath(digest);
    if exists_(audioFile) {
      return audioFile, false;
    }
    download := true;
  }

  // ---------------------------------------------------------------------
  // do_transcription, as written
  // ---------------------------------------------------------------------

  /** Python's TypeError for a call with too few or too many positional
      arguments; missing lists the parameters left unbound. */
  datatype CallError = TypeError(missing: seq<string>)

  /** The parameters of Transcriber.transcribe_segment after self. */
  const TranscribeSegmentParameters: seq<string> := ["segment_file", "offset", "options"]

  /** Binding argumentCount positional arguments to parameters, none of
      which has a default. */
  function BindPositional(parameters: seq<string>, argumentCount: nat): (r: Option<CallError>)
    ensures r.None? <==> argumentCount == |parameters|
    ensures argumentCount < |parameters| ==> r == Some(TypeError(parameters[argumentCount..]))
  {
    if argumentCount < |parameters| then Some(TypeError(parameters[argumentCount..]))
    else if argumentCount > |parameters| then Some(TypeError([]))
    else None
  }

  /** do_transcription as written: transcribe_segment is called with two
      arguments (the segment file and the options), so the binding fails
      before the model is reached. */
  function DoTranscriptionAsWritten(t: Transcriber, segmentFile: string, options: TranscribeOption)
    : (r: Result<ResultDict, CallError>)
  {
    match BindPositional(TranscribeSegmentParameters, 2)
    case Some(e) => Failure(e)
    case None =>
      Success(OneKeyDict(Basename(segmentFile),
                         Rebased(t.model(t.RequestFor(segmentFile, options)), 0.0)))
  }

  /** Every call of do_transcription as written raises TypeError for the
      missing 'options' argument. */
  lemma DoTranscriptionAsWrittenFails(t: Transcriber, segmentFile: string, options: TranscribeOption)
    ensures DoTranscriptionAsWritten(t, segmentFile, options) == Failure(TypeError(["options"]))
  {
    assert TranscribeSegmentParameters[2..] == ["options"];
  }

  // ---------------------------------------------------------------------
  // Tasks as written
  // ---------------------------------------------------------------------

  /** The comprehension variable `segment` that every lambda at
      service.py:79 closes over. */
  class SegmentCell {
    var segment: string

    constructor ()
      ensures segment == ""
    {
      segment := "";
    }
  }

  /** The segment each task of the list as written transcribes when run:
      the last one, for all of them. */
  function SegmentsSeenAsWritten(segments: seq<string>): (r: seq<string>)
    requires segments != []
    ensures |r| == |segments|
  {
    seq(|segments|, i requires 0 <= i < |segments| => segments[|segments| - 1])
  }

  /** [lambda: do_transcription(segment) for segment in audio_segments]:
      every lambda shares the one variable, which the comprehension leaves
      at the last segment, so all tasks read the same cell. */
  method LateBoundTasks(segments: seq<string>) returns (tasks: seq<SegmentCell>)
    ensures |tasks| == |segments|
    ensures segments != [] ==> forall i :: 0 <= i < |tasks| ==> tasks[i].segment == SegmentsSeenAsWritten(segments)[i]
  {
    var cell := new SegmentCell();
    tasks := [];
    for i := 0 to |segments|
      invariant |tasks| == i
      invariant forall m :: 0 <= m < i ==> tasks[m] == cell
      invariant i > 0 ==> cell.segment == segments[i - 1]
    {
      cell.segment := segments[i];
      tasks := tasks + [cell];
    }
  }

  /** On a fresh split of two or more segments, the tasks as written do
      not transcribe the segments: the first task sees the last file. */
  lemma LateBindingLosesSegments(audioFile: string, n: nat)
    requires n >= 2
    ensures SegmentsSeenAsWritten(SegmentFiles(Dirname(audioFile), Extension(audioFile), n)) !=
            SegmentFiles(Dirname(audioFile), Extension(audioFile), n)
  {
    LateBindingLosesPaths(Dirname(audioFile), Extension(audioFile), n);
  }

  /** The same for any directory and suffix: the first task sees path n-1. */
  lemma LateBindingLosesPaths(audioDir: string, suffix: string, n: nat)
    requires n >= 2
    ensures SegmentsSeenAsWritten(SegmentFiles(audioDir, suffix, n)) != SegmentFiles(audioDir, suffix, n)
  {
    var files := SegmentFiles(audioDir, suffix, n);
    SegmentFilesIndex(audioDir, suffix, n, 0);
    SegmentFilesIndex(audioDir, suffix, n, n - 1);
    SegmentPathInjective(audioDir, suffix, 0, n - 1);
    assert SegmentsSeenAsWritten(files)[0] == files[n - 1];
  }

  // ---------------------------------------------------------------------
  // The tasks and do_transcription, corrected
  // ---------------------------------------------------------------------

  /** A task that carries its own segment file and the offset of that
      file in the original audio. */
  datatype Task = Task(segmentFile: string, offset: int)

  /** The result do_transcription should return for a task: the
      segment's rebased fragments under the file's basename. */
  function TaskResult(t: Transcriber, task: Task, options: TranscribeOption): (d: ResultDict)
    ensures d.Valid() && d.keys == [Basename(task.segmentFile)]
  {
    OneKeyDict(Basename(task.segmentFile), Rebased(t.model(t.RequestFor(task.segmentFile, options)), task.offset as real))
  }

  /** do_transcription with the offset passed: {basename: fragments}. */
  method DoTranscription(t: Transcriber, task: Task, options: TranscribeOption) returns (d: ResultDict)
    ensures d == TaskResult(t, task, options)
  {
    var result := t.TranscribeSegment(task.segmentFile, task.offset, options);
    d := OneKeyDict(Basename(task.segmentFile), result);
  }

  /** The pool: every task run once, the results gathered in submission
      order whatever the completion order. */
  method RunTasks(t: Transcriber, tasks: seq<Task>, options: TranscribeOption, completionOrder: seq<nat>)
    returns (results: seq<ResultDict>)
    requires forall j :: 0 <= j < |completionOrder| ==> completionOrder[j] < |tasks|
    requires forall i :: 0 <= i < |tasks| ==> i in completionOrder
    ensures results == seq(|tasks|, i requires 0 <= i < |tasks| => TaskResult(t, tasks[i], options))
  {
    var outputs: seq<ResultDict> := [];
    for i := 0 to |tasks|
      invariant |outputs| == i
      invariant forall m :: 0 <= m < i ==> outputs[m] == TaskResult(t, tasks[m], options)
    {
      var d := DoTranscription(t, tasks[i], options);
      outputs := outputs + [d];
    }
    results := GatherResults(outputs, completionOrder);
  }

  // ---------------------------------------------------------------------
  // handle_asr_task, corrected
  // ---------------------------------------------------------------------

  /** The option bundle of service.py:71-77. */
  const ServiceOption: TranscribeOption :=
    TranscribeOption(5, "", true, VadParameters(0.6, 0.4, 500, 0, 160), map["zh" := true, "default" := false])

  /** Transcriber's default model size. */
  const DefaultModelSize: string := "large-v3-turbo"

  /** The overlap handle_asr_task requests. */
  const ServiceOverlap: int := 0

  /** The model request for one segment file under the service's options
      and the Transcriber's constants. */
  function ServiceRequest(segmentFile: string): (r: ModelRequest)
    ensures r.audio == segmentFile && r.beamSize == 5 && r.vadFilter
    ensures r.initialPrompt == map["zh" := ZhPrompt, "en" := EnPrompt] && r.logProbLowThreshold == LogProbLowThreshold
  {
    ModelRequest(segmentFile, 5, "", true, map["zh" := ZhPrompt, "en" := EnPrompt],
                 VadParameters(0.6, 0.4, 500, 0, 160), map["zh" := true, "default" := false], LogProbLowThreshold)
  }

  /** The tasks for a split: one per segment file, with the start of the
      clip written to it, or offset 0 for a reused listing, which records
      no starts. */
  function TasksFor(split: Split): (r: seq<Task>)
    ensures |r| == |split.segments|
    ensures forall i :: 0 <= i < |r| ==> r[i].segmentFile == split.segments[i]
    ensures forall i :: 0 <= i < |r| ==> r[i].offset == if i < |split.clips| then split.clips[i].start else 0
  {
    seq(|split.segments|, i requires 0 <= i < |split.segments| =>
      Task(split.segments[i], if i < |split.clips| then split.clips[i].start else 0))
  }

  /** Segment k's fragments shifted by k * sd, for k below n. */
  function ShiftedSegments(model: ModelRequest -> seq<Fragment>, audioFile: string, n: nat, sd: int)
    : (r: seq<seq<Fragment>>)
    ensures |r| == n
  {
    seq(n, k requires 0 <= k < n => Rebased(model(ServiceRequest(SegmentFile(audioFile, k))), (k * sd) as real))
  }

  /** The transcript of a fresh split: segment k's fragments shifted by
      k * sd, the segments in timeline order. */
  function FreshTranscript(model: ModelRequest -> seq<Fragment>, audioFile: string, duration: int, sd: int)
    : seq<Fragment>
    requires sd != 0
  {
    Flatten(ShiftedSegments(model, audioFile, |Plan(duration, sd, ServiceOverlap)|, sd))
  }

  /** A negative --segment_duration on audio of non-negative length cuts no
      clip, so the first run's transcript is empty. */
  lemma FreshTranscriptNegativeStep(model: ModelRequest -> seq<Fragment>, audioFile: string, duration: int, sd: int)
    requires sd < 0 && duration >= 0
    ensures FreshSplit(audioFile, duration, sd, ServiceOverlap) == Split([], [])
    ensures FreshTranscript(model, audioFile, duration, sd) == []
  {
    PlanNegativeStep(duration, sd, ServiceOverlap);
  }

  /** The tasks of a fresh split carry segment k's file and k * sd. */
  lemma FreshTasks(audioFile: string, duration: int, sd: int)
    requires sd != 0
    ensures TasksFor(FreshSplit(audioFile, duration, sd, ServiceOverlap)) ==
            seq(|Plan(duration, sd, ServiceOverlap)|, k requires 0 <= k < |Plan(duration, sd, ServiceOverlap)| =>
              Task(SegmentFile(audioFile, k), k * sd))
  {
    PlanStarts(duration, sd, ServiceOverlap);
  }

  /** The transcript of a split's tasks: each task's fragments shifted by
      its offset, in task order. */
  function SplitTranscript(model: ModelRequest -> seq<Fragment>, split: Split): seq<Fragment>
  {
    var tasks := TasksFor(split);
    Flatten(seq(|tasks|, i requires 0 <= i < |tasks| =>
      Rebased(model(ServiceRequest(tasks[i].segmentFile)), tasks[i].offset as real)))
  }

  /** A Transcriber built by the service makes the service's requests. */
  lemma ServiceRequestOf(t: Transcriber, segmentFile: string)
    requires t.initialPrompt == map["zh" := ZhPrompt, "en" := EnPrompt]
    requires t.logProbLowThreshold == LogProbLowThreshold
    ensures t.RequestFor(segmentFile, ServiceOption) == ServiceRequest(segmentFile)
  {
  }

  /** Pool and concatenation over one split: the tasks' fragments in task
      order, whatever the completion order. */
  method TranscribeSplit(t: Transcriber, split: Split, completionOrder: seq<nat>) returns (transcript: seq<Fragment>)
    requires t.initialPrompt == map["zh" := ZhPrompt, "en" := EnPrompt]
    requires t.logProbLowThreshold == LogProbLowThreshold
    requires forall j :: 0 <= j < |completionOrder| ==> completionOrder[j] < |split.segments|
    requires forall i :: 0 <= i < |split.segments| ==> i in completionOrder
    ensures transcript == SplitTranscript(t.model, split)
  {
    var tasks := TasksFor(split);
    var results := RunTasks(t, tasks, ServiceOption, completionOrder);
    transcript := SortAndConcatNumericKeys(results);
    TaskResultsConcat(t, tasks);
  }

  /** The pool's results concatenate to the tasks' rebased fragments. */
  lemma TaskResultsConcat(t: Transcriber, tasks: seq<Task>)
    requires t.initialPrompt == map["zh" := ZhPrompt, "en" := EnPrompt]
    requires t.logProbLowThreshold == LogProbLowThreshold
    ensures ConcatAll(seq(|tasks|, i requires 0 <= i < |tasks| => TaskResult(t, tasks[i], ServiceOption))) ==
            Flatten(seq(|tasks|, i requires 0 <= i < |tasks| =>
              Rebased(t.model(ServiceRequest(tasks[i].segmentFile)), tasks[i].offset as real)))
  {
    var names := seq(|tasks|, i requires 0 <= i < |tasks| => Basename(tasks[i].segmentFile));
    var parts := seq(|tasks|, i requires 0 <= i < |tasks| =>
                       Rebased(t.model(ServiceRequest(tasks[i].segmentFile)), tasks[i].offset as real));
    var results := seq(|tasks|, i requires 0 <= i < |tasks| => TaskResult(t, tasks[i], ServiceOption));
    forall i | 0 <= i < |tasks|
      ensures results[i] == OneKeyDict(names[i], parts[i])
    {
      ServiceRequestOf(t, tasks[i].segmentFile);
    }
    assert results == OneKeyDicts(names, parts);
    ConcatAllOneKey(names, parts);
  }

  /** A fresh split's transcript puts segment k's fragments at k * sd. */
  lemma FreshSplitTranscript(model: ModelRequest -> seq<Fragment>, audioFile: string, duration: int, sd: int)
    requires sd != 0
    ensures SplitTranscript(model, FreshSplit(audioFile, duration, sd, ServiceOverlap)) ==
            FreshTranscript(model, audioFile, duration, sd)
  {
    var plan := Plan(duration, sd, ServiceOverlap);
    var split := FreshSplit(audioFile, duration, sd, ServiceOverlap);
    var tasks := TasksFor(split);
    FreshTasks(audioFile, duration, sd);
    var byTask := seq(|tasks|, i requires 0 <= i < |tasks| =>
                    Rebased(model(ServiceRequest(tasks[i].segmentFile)), tasks[i].offset as real));
    var byIndex := ShiftedSegments(model, audioFile, |plan|, sd);
    assert byTask == byIndex;
    assert SplitTranscript(model, split) == Flatten(byTask);
    assert FreshTranscript(model, audioFile, duration, sd) == Flatten(byIndex);
  }

  /** A reused listing's transcript is the model's fragments unshifted,
      in listing order. */
  lemma ListedSplitTranscript(model: ModelRequest -> seq<Fragment>, audioFile: string, listing: seq<string>)
    ensures SplitTranscript(model, Split(ListedSegments(audioFile, listing), [])) ==
            Flatten(seq(|listing|, i requires 0 <= i < |listing| =>
              model(ServiceRequest(ListedSegments(audioFile, listing)[i]))))
  {
    var listed := ListedSegments(audioFile, listing);
    var tasks := TasksFor(Split(listed, []));
    var raw := seq(|listing|, i requires 0 <= i < |listing| => model(ServiceRequest(listed[i])));
    var parts := seq(|tasks|, i requires 0 <= i < |tasks| =>
                       Rebased(model(ServiceRequest(tasks[i].segmentFile)), tasks[i].offset as real));
    forall i | 0 <= i < |tasks|
      ensures parts[i] == raw[i]
    {
      RebasedZero(raw[i]);
    }
    assert parts == raw;
  }

  /** handle_asr_task with each task bound to its own segment and offset:
      download path, request, split, Transcriber, tasks, pool and
      concatenation. The probe's duration, the existing segment listing,
      the hash, the file test, CUDA availability, the model and the
      completion order are parameters. */
  method HandleAsrTask(audioUrl: string, numWorkers: int, segmentDuration: int,
                       md5: string -> string, exists_: string -> bool, duration: int,
                       existing: Option<seq<string>>, cudaAvailable: bool,
                       model: ModelRequest -> seq<Fragment>, completionOrder: seq<nat>)
    returns (r: Result<seq<Fragment>, SplitError>)
    requires forall j :: 0 <= j < |completionOrder| ==> completionOrder[j] < |completionOrder|
    requires forall i :: 0 <= i < |completionOrder| ==> i in completionOrder
    requires existing.Some? ==> |completionOrder| == |existing.value|
    requires existing.None? && segmentDuration != 0 ==>
               |completionOrder| == |Plan(duration, segmentDuration, ServiceOverlap)|
    ensures existing.None? && segmentDuration == 0 ==> r == Failure(ZeroDivisionError)
    ensures existing.None? && segmentDuration != 0 ==>
              r == Success(FreshTranscript(model, AudioPath(md5(audioUrl)), duration, segmentDuration))
    ensures existing.Some? ==>
              r == Success(Flatten(seq(|existing.value|, i requires 0 <= i < |existing.value| =>
                model(ServiceRequest(ListedSegments(AudioPath(md5(audioUrl)), existing.value)[i])))))
  {
    var audioFile, _ := DownloadAudio(audioUrl, md5, exists_);
    var requestData := new RequestData();
    var err := requestData.ParseFromRequestJson(
      RequestJson(Some(audioFile), Some(segmentDuration), Some(ServiceOverlap)));
    assert err == None;  // the request carries all three keys
    var split := Run(requestData, duration, existing);
    if split.Failure? {
      return Failure(split.error);
    }
    var transcriber := new Transcriber(DefaultModelSize, numWorkers, cudaAvailable, model);
    var transcript := TranscribeSplit(transcriber, split.value, completionOrder);
    if existing.None? {
      FreshSplitTranscript(model, audioFile, duration, segmentDuration);
    } else {
      ListedSplitTranscript(model, audioFile, existing.value);
    }
    r := Success(transcript);
  }
}
