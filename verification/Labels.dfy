/** Bounded identity labels and capability lists, as validated alike by
    multinexus/registry_authority.py and multinexus/agentd/executor_binding.py. */
module Labels {
  import opened Prelude
  import opened PyText
  import opened StringOrder
  import opened CanonicalJson

  const MAX_LABEL_LEN: nat := 64
  const MAX_CAPABILITIES: nat := 32

  predicate IsLabelChar(c: char) {
    'A' <= c <= 'Z' || 'a' <= c <= 'z' || '0' <= c <= '9' || c in {'_', '.', '-'}
  }

  predicate IsLabelText(s: string) {
    s != "" && forall c :: c in s ==> IsLabelChar(c)
  }

  predicate IsLabel(v: Json) {
    v.Str? && v.s == Strip(v.s) && |v.s| <= MAX_LABEL_LEN && IsLabelText(v.s)
  }

  /** `_validate_bounded_label` */
  function BoundedLabel(v: Json): Result<string> {
    if IsLabel(v) then Success(v.s) else Failure
  }

  /** A list of at most 32 labels in strictly increasing order. */
  ghost predicate IsCapabilityList(v: Json) {
    && v.Arr? && |v.items| <= MAX_CAPABILITIES
    && (forall i :: 0 <= i < |v.items| ==> IsLabel(v.items[i]))
    && (forall i, j :: 0 <= i < j < |v.items| ==> Before(v.items[i], v.items[j]))
  }

  predicate Before(a: Json, b: Json) {
    a.Str? && b.Str? && Less(a.s, b.s)
  }

  /** `_validate_capabilities`: labels, no duplicate, sorted. */
  method ValidateCapabilities(v: Json) returns (r: Result<seq<string>>)
    ensures r.Success? <==> IsCapabilityList(v)
    ensures r.Success? ==>
      v.Arr? && |r.value| == |v.items| && forall i :: 0 <= i < |r.value| ==> v.items[i] == Str(r.value[i])
  {
    hide IsLabel, Less;
    if !v.Arr? || |v.items| > MAX_CAPABILITIES {
      return Failure;
    }
    var seen: set<string> := {};
    var normalized: seq<string> := [];
    for i := 0 to |v.items|
      invariant |normalized| == i
      invariant forall j :: 0 <= j < i ==> IsLabel(v.items[j]) && v.items[j] == Str(normalized[j])
      invariant forall k :: k in seen <==> k in normalized
      invariant forall j, k :: 0 <= j < k < i ==> normalized[j] != normalized[k]
    {
      var cap := BoundedLabel(v.items[i]);
      if cap.Failure? {
        return Failure;
      }
      LabelIsText(v.items[i]);
      if cap.value in seen {
        var j :| 0 <= j < i && normalized[j] == cap.value;
        EqualNotBefore(v.items[j], v.items[i]);
        return Failure;
      }
      seen := seen + {cap.value};
      normalized := normalized + [cap.value];
    }
    SortedIffIncreasing(normalized, seen);
    if normalized != SortedKeys(seen) {
      var i, j :| 0 <= i < j < |normalized| && !Less(normalized[i], normalized[j]);
      assert !Before(v.items[i], v.items[j]);
      return Failure;
    }
    return Success(normalized);
  }

  lemma LabelIsText(v: Json)
    ensures BoundedLabel(v).Success? ==> IsLabel(v) && v == Str(BoundedLabel(v).value)
    ensures BoundedLabel(v).Failure? ==> !IsLabel(v)
  {
  }

  lemma EqualNotBefore(a: Json, b: Json)
    requires a == b
    ensures !Before(a, b)
  {
    if a.Str? {
      LessTrichotomy(a.s, a.s);
    }
  }

  /** A list without duplicates equals its sorted set exactly when it increases. */
  lemma SortedIffIncreasing(list: seq<string>, keys: set<string>)
    requires forall k :: k in keys <==> k in list
    ensures list == SortedKeys(keys) <==> StrictlySorted(list)
  {
    if StrictlySorted(list) {
      SortedUnique(list, SortedKeys(keys));
    }
  }

  /** Two strictly sorted lists with the same members are equal. */
  lemma {:induction false} SortedUnique(a: seq<string>, b: seq<string>)
    requires StrictlySorted(a) && StrictlySorted(b)
    requires forall k :: k in a <==> k in b
    ensures a == b
  {
    EmptyTogether(a, b);
    if a != [] {
      assert a[0] in b && b != [];
      assert b[0] in a;
      LeastFirst(a, b[0]);
      LeastFirst(b, a[0]);
      LessTrichotomy(a[0], b[0]);
      TailMembers(a);
      TailMembers(b);
      SortedUnique(a[1..], b[1..]);
      assert a == [a[0]] + a[1..] && b == [b[0]] + b[1..];
    }
  }

  lemma EmptyTogether(a: seq<string>, b: seq<string>)
    requires forall k :: k in a <==> k in b
    ensures a == [] <==> b == []
  {
    if a != [] {
      assert a[0] in b;
    }
    if b != [] {
      assert b[0] in a;
    }
  }

  lemma LeastFirst(a: seq<string>, k: string)
    requires StrictlySorted(a) && k in a
    ensures k == a[0] || Less(a[0], k)
  {
  }

  lemma TailMembers(a: seq<string>)
    requires StrictlySorted(a) && a != []
    ensures StrictlySorted(a[1..])
    ensures forall k :: k in a[1..] <==> k in a && k != a[0]
  {
    forall k | k in a[1..] ensures k != a[0] {
      var i :| 1 <= i < |a| && a[i] == k;
      LessTrichotomy(a[0], a[i]);
    }
  }
}
