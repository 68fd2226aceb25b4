/** Secret redaction over nested values (server/bbz_core/redaction.py). */
module Redaction {
  import opened Wrappers
  import opened Text

  const MASK: string := "[redacted]"
  const MIN_LEN: nat := 3
  const MAX_DEPTH: nat := 10

  datatype Entry = Entry(key: string, value: Value)

  /** A value on its way to a sink: strings, dicts, lists, tuples, anything else. */
  datatype Value =
    | VStr(text: string)
    | VDict(entries: seq<Entry>)
    | VList(items: seq<Value>)
    | VTuple(parts: seq<Value>)
    | VOther(tag: nat)

  // ---- leftmost replacement --------------------------------------------------------------

  /** One of the two starts with the other. */
  predicate Meets(a: string, b: string) {
    a <= b || b <= a
  }

  /** No occurrence of the secret can reach over an end of a mask: it does not start with an
      end of the mask, and no end of it is, or starts with, a start of the mask. */
  ghost predicate Clear(secret: string, mask: string) {
    && (forall j :: 0 <= j < |mask| ==> !(mask[j..] <= secret))
    && (forall k :: 0 <= k < |secret| ==> !Meets(secret[k..], mask))
  }

  /** The secret is clear of the mask's ends and not part of the mask. */
  ghost predicate Outside(secret: string, mask: string) {
    Clear(secret, mask) && !Occurs(secret, mask)
  }

  /** Secrets without the first and the last character of the mask are clear of its ends. */
  lemma WithoutEndsIsClear(secret: string, mask: string)
    requires mask != "" && mask[0] !in secret && mask[|mask| - 1] !in secret
    ensures Clear(secret, mask)
  {
    forall j | 0 <= j < |mask| ensures !(mask[j..] <= secret) {
      assert mask[j..][|mask| - 1 - j] == mask[|mask| - 1];
    }
    forall k | 0 <= k < |secret| ensures !Meets(secret[k..], mask) {
      assert secret[k..][0] == secret[k];
    }
  }

  /** Secrets that share no character with the mask are outside it. */
  lemma DisjointIsOutside(secret: string, mask: string)
    requires secret != "" && mask != "" && forall c :: c in secret ==> c !in mask
    ensures Outside(secret, mask)
  {
    WithoutEndsIsClear(secret, mask);
    if Occurs(secret, mask) { SharesCharacter(secret, mask); }
  }

  lemma SharesCharacter(t: string, text: string)
    requires t != "" && Occurs(t, text)
    ensures t[0] in text
  {
    var i :| 0 <= i <= |text| && OccursAt(t, text, i);
    assert text[i] == text[i..i + |t|][0];
  }

  /** A prefix of the result that does not run into a mask was a prefix before. */
  lemma {:induction false} PrefixWasThere(hay: string, needle: string, mask: string, u: string)
    requires needle != "" && u <= Replace(hay, needle, mask)
    requires forall k :: 0 <= k < |u| ==> !Meets(u[k..], mask)
    ensures u <= hay
    decreases |hay|
  {
    if u != "" && |hay| >= |needle| {
      if needle <= hay {
        assert u[0..] == u;
        MaskIsMet(u, mask, Replace(hay[|needle|..], needle, mask));
      } else {
        assert Replace(hay, needle, mask)[1..] == Replace(hay[1..], needle, mask);
        forall k | 0 <= k < |u[1..]| ensures !Meets(u[1..][k..], mask) { assert u[1..][k..] == u[k + 1..]; }
        PrefixWasThere(hay[1..], needle, mask, u[1..]);
      }
    }
  }

  lemma ShiftedOccurrence(t: string, front: string, rest: string, i: nat)
    requires i >= |front|
    ensures OccursAt(t, front + rest, i) <==> OccursAt(t, rest, i - |front|)
  {
    var r := front + rest;
    if i <= |r| - |t| {
      assert r[i..i + |t|] == rest[i - |front|..i - |front| + |t|];
    }
  }

  lemma OccursBehind(t: string, hay: string, n: nat)
    requires n <= |hay|
    ensures Occurs(t, hay[n..]) ==> Occurs(t, hay)
  {
    if Occurs(t, hay[n..]) {
      var j :| 0 <= j <= |hay[n..]| && OccursAt(t, hay[n..], j);
      assert hay == hay[..n] + hay[n..];
      ShiftedOccurrence(t, hay[..n], hay[n..], n + j);
      assert OccursAt(t, hay, n + j);
    }
  }

  /** Behind a mask, a text outside it occurs only in the rest. */
  lemma NotInsideMask(t: string, mask: string, rest: string, i: nat)
    requires Outside(t, mask) && OccursAt(t, mask + rest, i)
    ensures i >= |mask|
  {
    if i < |mask| { StartsInMask(t, mask, rest, i); }
  }

  /** Replacement never creates a text that is outside the mask, and leaves no occurrence
      of the replaced one. */
  lemma {:induction false} ReplacedAt(hay: string, needle: string, mask: string, t: string, i: nat)
    requires needle != "" && mask != "" && t != "" && Outside(t, mask)
    requires OccursAt(t, Replace(hay, needle, mask), i)
    ensures t != needle && Occurs(t, hay)
    decreases |hay|
  {
    if |hay| < |needle| {
      assert OccursAt(t, hay, i);
    } else if needle <= hay {
      var rest := Replace(hay[|needle|..], needle, mask);
      NotInsideMask(t, mask, rest, i);
      ShiftedOccurrence(t, mask, rest, i);
      ReplacedAt(hay[|needle|..], needle, mask, t, i - |mask|);
      OccursBehind(t, hay, |needle|);
    } else if i == 0 {
      PrefixWasThere(hay, needle, mask, t);
      assert OccursAt(t, hay, 0);
    } else {
      ShiftedOccurrence(t, [hay[0]], Replace(hay[1..], needle, mask), i);
      ReplacedAt(hay[1..], needle, mask, t, i - 1);
      OccursBehind(t, hay, 1);
    }
  }

  lemma ReplaceEffect(hay: string, needle: string, mask: string, t: string)
    requires needle != "" && mask != "" && t != "" && Outside(t, mask)
    ensures Occurs(t, Replace(hay, needle, mask)) ==> t != needle && Occurs(t, hay)
  {
    if Occurs(t, Replace(hay, needle, mask)) {
      var i :| 0 <= i <= |Replace(hay, needle, mask)| && OccursAt(t, Replace(hay, needle, mask), i);
      ReplacedAt(hay, needle, mask, t, i);
    }
  }

  lemma {:induction false} ReplaceAbsent(hay: string, needle: string, mask: string)
    requires needle != "" && !Occurs(needle, hay)
    ensures Replace(hay, needle, mask) == hay
    decreases |hay|
  {
    if |hay| >= |needle| {
      assert !OccursAt(needle, hay, 0);
      OccursBehind(needle, hay, 1);
      ReplaceAbsent(hay[1..], needle, mask);
    }
  }

  // ---- one string, every secret ------------------------------------------------------------

  /** Registered secrets: never empty, and outside the mask. */
  ghost predicate Maskable(order: seq<string>) {
    forall i :: 0 <= i < |order| ==> order[i] != "" && Outside(order[i], MASK)
  }

  ghost predicate FreeOf(text: string, order: seq<string>) {
    forall i :: 0 <= i < |order| ==> !Occurs(order[i], text)
  }

  /** The secrets replaced one after the other, in iteration order. */
  function Masked(text: string, order: seq<string>): string
    requires forall i :: 0 <= i < |order| ==> order[i] != ""
  {
    if order == [] then text
    else Replace(Masked(text, order[..|order| - 1]), order[|order| - 1], MASK)
  }

  /** The string case of `_scrub`: a loop over the secrets, replacing where one occurs. */
  method ScrubText(text: string, order: seq<string>) returns (r: string)
    requires forall i :: 0 <= i < |order| ==> order[i] != ""
    ensures r == Masked(text, order)
  {
    r := text;
    var i := 0;
    while i < |order|
      invariant 0 <= i <= |order| && r == Masked(text, order[..i])
    {
      assert order[..i + 1][..i] == order[..i];
      if Occurs(order[i], r) {
        r := Replace(r, order[i], MASK);
      } else {
        ReplaceAbsent(r, order[i], MASK);
      }
      i := i + 1;
    }
    assert order[..i] == order;
  }

  lemma {:induction false} MaskedIsFree(text: string, order: seq<string>)
    requires Maskable(order)
    ensures FreeOf(Masked(text, order), order)
  {
    if order != [] {
      var init, s := order[..|order| - 1], order[|order| - 1];
      MaskedIsFree(text, init);
      var before := Masked(text, init);
      forall i | 0 <= i < |order| ensures !Occurs(order[i], Masked(text, order)) {
        ReplaceEffect(before, s, MASK, order[i]);
        if i < |init| { assert order[i] == init[i]; }
      }
    }
  }

  lemma {:induction false} MaskedAbsent(text: string, order: seq<string>)
    requires FreeOf(text, order) && forall i :: 0 <= i < |order| ==> order[i] != ""
    ensures Masked(text, order) == text
  {
    if order != [] {
      var init := order[..|order| - 1];
      forall i | 0 <= i < |init| ensures !Occurs(init[i], text) { assert init[i] == order[i]; }
      MaskedAbsent(text, init);
      ReplaceAbsent(text, order[|order| - 1], MASK);
    }
  }

  // ---- nested values --------------------------------------------------------------------------

  function Scrub(v: Value, order: seq<string>, depth: nat): Value
    requires forall i :: 0 <= i < |order| ==> order[i] != ""
    decreases v
  {
    match v
    case VStr(text) => VStr(Masked(text, order))
    case VOther(_) => v
    case VDict(entries) =>
      if depth >= MAX_DEPTH then v
      else VDict(seq(|entries|, i requires 0 <= i < |entries| =>
                   Entry(entries[i].key, Scrub(entries[i].value, order, depth + 1))))
    case VList(items) =>
      if depth >= MAX_DEPTH then v
      else VList(seq(|items|, i requires 0 <= i < |items| => Scrub(items[i], order, depth + 1)))
    case VTuple(parts) =>
      if depth >= MAX_DEPTH then v
      else VTuple(seq(|parts|, i requires 0 <= i < |parts| => Scrub(parts[i], order, depth + 1)))
  }

  /** No secret occurs in a string leaf below at most `levels` containers. */
  ghost predicate Clean(v: Value, order: seq<string>, levels: nat)
    decreases v
  {
    match v
    case VStr(text) => FreeOf(text, order)
    case VOther(_) => true
    case VDict(entries) => levels > 0 ==> forall i :: 0 <= i < |entries| ==> Clean(entries[i].value, order, levels - 1)
    case VList(items) => levels > 0 ==> forall i :: 0 <= i < |items| ==> Clean(items[i], order, levels - 1)
    case VTuple(parts) => levels > 0 ==> forall i :: 0 <= i < |parts| ==> Clean(parts[i], order, levels - 1)
  }

  /** Two orders of the same secrets. */
  ghost predicate SameSecrets(a: seq<string>, b: seq<string>) {
    forall s :: s in a <==> s in b
  }

  lemma FreeInAnyOrder(text: string, a: seq<string>, b: seq<string>)
    requires SameSecrets(a, b) && FreeOf(text, a)
    ensures FreeOf(text, b)
  {
    forall i | 0 <= i < |b| ensures !Occurs(b[i], text) {
      assert b[i] in a;
      var j :| 0 <= j < |a| && a[j] == b[i];
    }
  }

  /** Whatever order the secrets are taken in, no secret occurs in a string leaf under at
      most ten containers after scrubbing. */
  lemma {:induction false} ScrubbedIsClean(v: Value, order: seq<string>, depth: nat)
    requires Maskable(order) && depth <= MAX_DEPTH
    ensures Clean(Scrub(v, order, depth), order, MAX_DEPTH - depth)
    decreases v
  {
    match v
    case VStr(text) => MaskedIsFree(text, order);
    case VOther(_) =>
    case VDict(entries) =>
      if depth < MAX_DEPTH {
        forall i | 0 <= i < |entries|
          ensures Clean(Scrub(entries[i].value, order, depth + 1), order, MAX_DEPTH - depth - 1)
        {
          ScrubbedIsClean(entries[i].value, order, depth + 1);
        }
      }
    case VList(items) =>
      if depth < MAX_DEPTH {
        forall i | 0 <= i < |items| ensures Clean(Scrub(items[i], order, depth + 1), order, MAX_DEPTH - depth - 1) {
          ScrubbedIsClean(items[i], order, depth + 1);
        }
      }
    case VTuple(parts) =>
      if depth < MAX_DEPTH {
        forall i | 0 <= i < |parts| ensures Clean(Scrub(parts[i], order, depth + 1), order, MAX_DEPTH - depth - 1) {
          ScrubbedIsClean(parts[i], order, depth + 1);
        }
      }
  }

  /** Scrubbing what is already clean, in any order of the same secrets, changes nothing. */
  lemma {:induction false} CleanIsFixed(v: Value, a: seq<string>, b: seq<string>, depth: nat)
    requires SameSecrets(a, b) && depth <= MAX_DEPTH && Clean(v, a, MAX_DEPTH - depth)
    requires forall i :: 0 <= i < |b| ==> b[i] != ""
    ensures Scrub(v, b, depth) == v
    decreases v
  {
    match v
    case VStr(text) =>
      FreeInAnyOrder(text, a, b);
      MaskedAbsent(text, b);
    case VOther(_) =>
    case VDict(entries) =>
      if depth < MAX_DEPTH {
        forall i | 0 <= i < |entries| ensures Scrub(entries[i].value, b, depth + 1) == entries[i].value {
          CleanIsFixed(entries[i].value, a, b, depth + 1);
        }
        assert Scrub(v, b, depth).entries == entries;
      }
    case VList(items) =>
      if depth < MAX_DEPTH {
        forall i | 0 <= i < |items| ensures Scrub(items[i], b, depth + 1) == items[i] {
          CleanIsFixed(items[i], a, b, depth + 1);
        }
        assert Scrub(v, b, depth).items == items;
      }
    case VTuple(parts) =>
      if depth < MAX_DEPTH {
        forall i | 0 <= i < |parts| ensures Scrub(parts[i], b, depth + 1) == parts[i] {
          CleanIsFixed(parts[i], a, b, depth + 1);
        }
        assert Scrub(v, b, depth).parts == parts;
      }
  }

  /** `scrub` is idempotent, also when the second pass takes the secrets in another order. */
  lemma ScrubIdempotent(v: Value, a: seq<string>, b: seq<string>)
    requires Maskable(a) && Maskable(b) && SameSecrets(a, b)
    ensures Scrub(Scrub(v, a, 0), b, 0) == Scrub(v, a, 0)
  {
    ScrubbedIsClean(v, a, 0);
    CleanIsFixed(Scrub(v, a, 0), a, b, 0);
  }

  // ---- where the guarantee ends -----------------------------------------------------------------

  function Child(v: Value, i: nat): Option<Value> {
    match v
    case VDict(entries) => if i < |entries| then Some(entries[i].value) else None
    case VList(items) => if i < |items| then Some(items[i]) else None
    case VTuple(parts) => if i < |parts| then Some(parts[i]) else None
    case _ => None
  }

  /** The string leaf at the end of a path of container positions. */
  function LeafAt(v: Value, path: seq<nat>): Option<string>
    decreases |path|
  {
    if path == [] then if v.VStr? then Some(v.text) else None
    else if Child(v, path[0]).None? then None else LeafAt(Child(v, path[0]).value, path[1..])
  }

  lemma ChildScrubbed(v: Value, order: seq<string>, depth: nat, i: nat)
    requires Child(v, i).Some? && forall k :: 0 <= k < |order| ==> order[k] != ""
    ensures Child(Scrub(v, order, depth), i) ==
      Some(if depth >= MAX_DEPTH then Child(v, i).value else Scrub(Child(v, i).value, order, depth + 1))
  {
  }

  /** In any value a string leaf is masked if and only if at most ten containers enclose it;
      one that lies deeper comes out as it went in. */
  lemma {:induction false} DepthLimitExact(v: Value, path: seq<nat>, order: seq<string>, depth: nat)
    requires LeafAt(v, path).Some? && depth <= 10 && forall k :: 0 <= k < |order| ==> order[k] != ""
    ensures var text := LeafAt(v, path).value;
      LeafAt(Scrub(v, order, depth), path) == Some(if depth + |path| <= 10 then Masked(text, order) else text)
    decreases |path|
  {
    if path != [] {
      ChildScrubbed(v, order, depth, path[0]);
      if depth < MAX_DEPTH { DepthLimitExact(Child(v, path[0]).value, path[1..], order, depth + 1); }
    }
  }

  lemma {:induction false} ReplacedShowsMask(hay: string, needle: string, mask: string)
    requires needle != "" && Occurs(needle, hay)
    ensures Occurs(mask, Replace(hay, needle, mask))
    decreases |hay|
  {
    var r := Replace(hay, needle, mask);
    var i :| 0 <= i <= |hay| && OccursAt(needle, hay, i);
    if needle <= hay {
      assert OccursAt(mask, r, 0);
    } else {
      assert i > 0;
      assert hay == [hay[0]] + hay[1..];
      ShiftedOccurrence(needle, [hay[0]], hay[1..], i);
      assert OccursAt(needle, hay[1..], i - 1);
      ReplacedShowsMask(hay[1..], needle, mask);
      assert r[1..] == Replace(hay[1..], needle, mask);
      OccursBehind(mask, r, 1);
    }
  }

  /** Whatever is replaced, a mask stays visible. */
  lemma {:induction false} MaskedShowsMask(text: string, order: seq<string>)
    requires forall i :: 0 <= i < |order| ==> order[i] != ""
    ensures Masked(text, order) == text || Occurs(MASK, Masked(text, order))
  {
    if order != [] {
      var init, s := order[..|order| - 1], order[|order| - 1];
      MaskedShowsMask(text, init);
      if Occurs(s, Masked(text, init)) {
        ReplacedShowsMask(Masked(text, init), s, MASK);
      } else {
        ReplaceAbsent(Masked(text, init), s, MASK);
      }
    }
  }

  lemma OccursInside(t: string, u: string, text: string)
    requires Occurs(t, u) && Occurs(u, text)
    ensures Occurs(t, text)
  {
    var i :| 0 <= i <= |u| && OccursAt(t, u, i);
    var j :| 0 <= j <= |text| && OccursAt(u, text, j);
    var rest := text[j + |u|..];
    assert text[j..] == u + rest;
    assert (u + rest)[i..i + |t|] == u[i..i + |t|];
    assert text == text[..j] + text[j..];
    ShiftedOccurrence(t, text[..j], text[j..], j + i);
    assert OccursAt(t, text, j + i);
  }

  /** A secret that is part of the mask survives its own masking, whatever else is masked. */
  lemma SecretInsideMaskSurvives(secret: string, order: seq<string>)
    requires Occurs(secret, MASK) && forall i :: 0 <= i < |order| ==> order[i] != ""
    ensures Occurs(secret, Masked(secret, order))
  {
    MaskedShowsMask(secret, order);
    if Masked(secret, order) == secret {
      assert OccursAt(secret, secret, 0);
    } else {
      OccursInside(secret, MASK, Masked(secret, order));
    }
  }

  /** After masking no text contains any of the secrets. */
  ghost predicate AlwaysFree(order: seq<string>)
    requires forall i :: 0 <= i < |order| ==> order[i] != ""
  {
    forall text: string :: FreeOf(Masked(text, order), order)
  }

  lemma MaskableIsFree(order: seq<string>)
    requires Maskable(order)
    ensures AlwaysFree(order)
  {
    forall text: string ensures FreeOf(Masked(text, order), order) {
      MaskedIsFree(text, order);
    }
  }

  lemma NotFree(order: seq<string>, i: nat)
    requires (forall k :: 0 <= k < |order| ==> order[k] != "") && i < |order| && Occurs(order[i], MASK)
    ensures !AlwaysFree(order)
  {
    SecretInsideMaskSurvives(order[i], order);
    assert !FreeOf(Masked(order[i], order), order);
  }

  /** For secrets that are clear of the mask's ends, or part of it: every text is freed of
      all of them exactly when none is part of the mask. */
  lemma MaskingExact(order: seq<string>)
    requires forall i :: 0 <= i < |order| ==> order[i] != "" && (Clear(order[i], MASK) || Occurs(order[i], MASK))
    ensures AlwaysFree(order) <==> forall i :: 0 <= i < |order| ==> !Occurs(order[i], MASK)
  {
    if forall i :: 0 <= i < |order| ==> !Occurs(order[i], MASK) {
      MaskableIsFree(order);
    } else {
      var i :| 0 <= i < |order| && Occurs(order[i], MASK);
      NotFree(order, i);
    }
  }

  // ---- nothing but text changes -------------------------------------------------------------------

  /** The same containers, keys and other values; texts may differ. */
  predicate SameShape(a: Value, b: Value) {
    match (a, b)
    case (VStr(_), VStr(_)) => true
    case (VOther(x), VOther(y)) => x == y
    case (VDict(x), VDict(y)) =>
      |x| == |y| && forall i :: 0 <= i < |x| ==> x[i].key == y[i].key && SameShape(x[i].value, y[i].value)
    case (VList(x), VList(y)) => |x| == |y| && forall i :: 0 <= i < |x| ==> SameShape(x[i], y[i])
    case (VTuple(x), VTuple(y)) => |x| == |y| && forall i :: 0 <= i < |x| ==> SameShape(x[i], y[i])
    case _ => false
  }

  lemma {:induction false} ShapeReflexive(v: Value)
    ensures SameShape(v, v)
  {
    match v
    case VDict(x) => forall i | 0 <= i < |x| ensures SameShape(x[i].value, x[i].value) { ShapeReflexive(x[i].value); }
    case VList(x) => forall i | 0 <= i < |x| ensures SameShape(x[i], x[i]) { ShapeReflexive(x[i]); }
    case VTuple(x) => forall i | 0 <= i < |x| ensures SameShape(x[i], x[i]) { ShapeReflexive(x[i]); }
    case _ =>
  }

  /** Scrubbing changes texts only: containers, their order, their keys and all other values
      stay, at any depth. */
  lemma {:induction false} ScrubKeepsShape(v: Value, order: seq<string>, depth: nat)
    requires forall i :: 0 <= i < |order| ==> order[i] != ""
    ensures SameShape(v, Scrub(v, order, depth))
    decreases v
  {
    ShapeReflexive(v);
    if depth < MAX_DEPTH {
      match v
      case VDict(x) =>
        forall i | 0 <= i < |x| ensures SameShape(x[i].value, Scrub(x[i].value, order, depth + 1)) {
          ScrubKeepsShape(x[i].value, order, depth + 1);
        }
      case VList(x) =>
        forall i | 0 <= i < |x| ensures SameShape(x[i], Scrub(x[i], order, depth + 1)) {
          ScrubKeepsShape(x[i], order, depth + 1);
        }
      case VTuple(x) =>
        forall i | 0 <= i < |x| ensures SameShape(x[i], Scrub(x[i], order, depth + 1)) {
          ScrubKeepsShape(x[i], order, depth + 1);
        }
      case _ =>
    }
  }

  // ---- one secret of any characters ------------------------------------------------------------

  /** A mask followed by the right text shows the secret: it ends with a start of it. */
  ghost predicate EntersFromMask(t: string, mask: string) {
    exists j :: 0 <= j < |mask| && mask[j..] <= t
  }

  /** The secret's first `k` characters, followed by the secret, do not show it earlier. */
  ghost predicate FirstAt(t: string, k: nat)
    requires k <= |t|
  {
    forall i :: 0 <= i < k ==> !OccursAt(t, t[..k] + t, i)
  }

  /** The right text followed by a mask shows the secret. */
  ghost predicate LeavesIntoMask(t: string, mask: string) {
    exists k :: 0 <= k < |t| && Meets(t[k..], mask) && FirstAt(t, k)
  }

  ghost predicate Survivable(t: string, mask: string) {
    Occurs(t, mask) || EntersFromMask(t, mask) || LeavesIntoMask(t, mask)
  }

  /** A text that runs into the first replaced secret after `k` characters. */
  lemma {:induction false} RunsIntoMask(hay: string, t: string, mask: string, k: nat)
    requires t != "" && k <= |hay| && k <= |t| && t[..k] == hay[..k] && t[k..] <= Replace(hay[k..], t, mask)
    requires !(t <= hay) && forall i :: 0 <= i < k ==> !(t <= hay[i..])
    ensures LeavesIntoMask(t, mask)
    decreases |hay| - k
  {
    var rest := hay[k..];
    if |rest| < |t| || k == |t| {
      WholePrefix(hay, t, k);
    } else if t <= rest {
      MaskIsMet(t[k..], mask, Replace(rest[|t|..], t, mask));
      NotEarlier(hay, t, k);
    } else {
      NextCharacter(hay, t, mask, k);
      RunsIntoMask(hay, t, mask, k + 1);
    }
  }

  lemma NextCharacter(hay: string, t: string, mask: string, k: nat)
    requires k < |t| <= |hay| - k && t[..k] == hay[..k] && t[k..] <= Replace(hay[k..], t, mask) && !(t <= hay[k..])
    ensures t[..k + 1] == hay[..k + 1] && t[k + 1..] <= Replace(hay[k + 1..], t, mask)
  {
    var rest := hay[k..];
    assert rest[1..] == hay[k + 1..] && t[k..][1..] == t[k + 1..];
    assert Replace(rest, t, mask) == [hay[k]] + Replace(hay[k + 1..], t, mask);
    assert t[k] == t[k..][0] == hay[k];
    assert t[..k + 1] == t[..k] + [t[k]] && hay[..k + 1] == hay[..k] + [hay[k]];
  }

  lemma WholePrefix(hay: string, t: string, k: nat)
    requires k <= |hay| && k <= |t| && t[..k] == hay[..k] && t[k..] <= hay[k..]
    ensures t <= hay
  {
    assert t == t[..k] + t[k..];
    assert hay == hay[..k] + hay[k..];
  }

  lemma MaskIsMet(u: string, mask: string, rest: string)
    requires u <= mask + rest
    ensures Meets(u, mask)
  {
    if |u| <= |mask| { assert u == (mask + rest)[..|u|] == mask[..|u|]; }
  }

  lemma NotEarlier(hay: string, t: string, k: nat)
    requires k < |t| && k + |t| <= |hay| && t[..k] == hay[..k] && t <= hay[k..]
    requires forall i :: 0 <= i < k ==> !(t <= hay[i..])
    ensures FirstAt(t, k)
  {
    var both := t[..k] + t;
    assert both == hay[..k + |t|];
    forall i | 0 <= i < k ensures !OccursAt(t, both, i) {
      assert both[i..i + |t|] == hay[i..][..|t|];
    }
  }

  /** Wherever the secret shows up after masking, it is one of the survivable ones. */
  lemma {:induction false} SurvivorsAreSurvivable(hay: string, t: string, mask: string, i: nat)
    requires t != "" && OccursAt(t, Replace(hay, t, mask), i)
    ensures Survivable(t, mask)
    decreases |hay|
  {
    if |hay| >= |t| {
      if t <= hay {
        var rest := Replace(hay[|t|..], t, mask);
        if i < |mask| {
          StartsInMask(t, mask, rest, i);
        } else {
          ShiftedOccurrence(t, mask, rest, i);
          SurvivorsAreSurvivable(hay[|t|..], t, mask, i - |mask|);
        }
      } else if i == 0 {
        assert hay[0..] == hay && t[0..] == t;
        RunsIntoMask(hay, t, mask, 0);
      } else {
        ShiftedOccurrence(t, [hay[0]], Replace(hay[1..], t, mask), i);
        SurvivorsAreSurvivable(hay[1..], t, mask, i - 1);
      }
    }
  }

  lemma StartsInMask(t: string, mask: string, rest: string, i: nat)
    requires i < |mask| && OccursAt(t, mask + rest, i)
    ensures Occurs(t, mask) || EntersFromMask(t, mask)
  {
    var all := mask + rest;
    if i + |t| <= |mask| {
      assert mask[i..i + |t|] == all[i..i + |t|] == t;
      assert OccursAt(t, mask, i);
    } else {
      assert mask[i..] == all[i..i + |t|][..|mask| - i];
    }
  }

  lemma {:induction false} ReplaceSkips(x: string, t: string, z: string, mask: string)
    requires t != "" && |z| < |t| && forall i :: 0 <= i < |x| ==> !(t <= (x + t + z)[i..])
    ensures Replace(x + t + z, t, mask) == x + mask + z
    decreases |x|
  {
    var text := x + t + z;
    if x == "" {
      assert text[|t|..] == z && t <= text;
    } else {
      var rest := x[1..] + t + z;
      assert text[1..] == rest && text[0..] == text;
      forall i | 0 <= i < |x[1..]| ensures !(t <= rest[i..]) { assert rest[i..] == text[i + 1..]; }
      ReplaceSkips(x[1..], t, z, mask);
      assert [text[0]] + (x[1..] + mask + z) == x + mask + z;
    }
  }

  lemma EnteringSurvives(t: string, mask: string) returns (text: string)
    requires t != "" && EntersFromMask(t, mask)
    ensures Occurs(t, Replace(text, t, mask))
  {
    var j :| 0 <= j < |mask| && mask[j..] <= t;
    var q := t[|mask| - j..];
    text := t + q;
    ReplacesFirst(t, q, mask);
    assert t == mask[j..] + q;
    TailShows(mask, j, q);
  }

  lemma ReplacesFirst(t: string, z: string, mask: string)
    requires t != "" && |z| < |t|
    ensures Replace(t + z, t, mask) == mask + z
  {
    ReplaceSkips("", t, z, mask);
    assert "" + t + z == t + z;
    assert "" + mask + z == mask + z;
  }

  lemma TailShows(mask: string, j: nat, q: string)
    requires j <= |mask|
    ensures Occurs(mask[j..] + q, mask + q)
  {
    var t, out := mask[j..] + q, mask + q;
    assert out[j..j + |t|] == t;
    assert OccursAt(t, out, j);
  }

  lemma LeavingSurvives(t: string, mask: string) returns (text: string)
    requires mask != "" && LeavesIntoMask(t, mask)
    ensures Occurs(t, Replace(text, t, mask))
  {
    var k :| 0 <= k < |t| && Meets(t[k..], mask) && FirstAt(t, k);
    var z := Missing(t[k..], mask);
    text := t[..k] + t + z;
    NotBefore(t, k, z, mask);
    ShowsAfterMask(t, k, mask, z);
  }

  lemma ShowsAfterMask(t: string, k: nat, mask: string, z: string)
    requires k <= |t| && t[k..] <= mask + z
    ensures Occurs(t, t[..k] + mask + z)
  {
    assert t == t[..k] + t[k..];
    ShowsUp(t[..k], t[k..], mask, z);
  }

  lemma NotBefore(t: string, k: nat, z: string, mask: string)
    requires k < |t| && FirstAt(t, k) && |z| < |t|
    ensures Replace(t[..k] + t + z, t, mask) == t[..k] + mask + z
  {
    forall i | 0 <= i < k ensures !(t <= (t[..k] + t + z)[i..]) { NotYet(t, k, z, i); }
    ReplaceSkips(t[..k], t, z, mask);
  }

  /** What a text has beyond a mask it meets. */
  function Missing(y: string, mask: string): (z: string)
    requires Meets(y, mask)
    ensures y <= mask + z && (mask != "" && y != "" ==> |z| < |y|)
  {
    if mask <= y then y[|mask|..] else ""
  }

  lemma NotYet(t: string, k: nat, z: string, i: nat)
    requires i < k < |t| && FirstAt(t, k)
    ensures !(t <= (t[..k] + t + z)[i..])
  {
    var both := t[..k] + t;
    assert !OccursAt(t, both, i);
    assert both[i..i + |t|] == (both + z)[i..][..|t|];
  }

  lemma ShowsUp(x: string, y: string, mask: string, z: string)
    requires y <= mask + z
    ensures Occurs(x + y, x + mask + z)
  {
    var out := x + mask + z;
    assert out == x + (mask + z);
    assert out[0..|x + y|] == x + y;
    assert OccursAt(x + y, out, 0);
  }

  /** For one secret of any characters: every text is freed of it exactly when it is not
      survivable. */
  lemma OneSecretExact(t: string)
    requires t != ""
    ensures (forall text: string :: Freed(text, t)) <==> !Survivable(t, MASK)
  {
    if Survivable(t, MASK) {
      var text := SurvivableSurvives(t, MASK);
      assert !Freed(text, t);
    } else {
      forall text: string ensures Freed(text, t) { NotSurvivableIsFreed(text, t); }
    }
  }

  ghost predicate Freed(text: string, t: string)
    requires t != ""
  {
    !Occurs(t, Replace(text, t, MASK))
  }

  lemma SurvivableSurvives(t: string, mask: string) returns (text: string)
    requires t != "" && mask != "" && Survivable(t, mask)
    ensures Occurs(t, Replace(text, t, mask))
  {
    if Occurs(t, mask) {
      text := t;
      assert "" + t + "" == t && "" + mask + "" == mask;
      ReplaceSkips("", t, "", mask);
    } else if EntersFromMask(t, mask) {
      text := EnteringSurvives(t, mask);
    } else {
      text := LeavingSurvives(t, mask);
    }
  }

  lemma NotSurvivableIsFreed(text: string, t: string)
    requires t != "" && !Survivable(t, MASK)
    ensures Freed(text, t)
  {
    if Occurs(t, Replace(text, t, MASK)) {
      var i :| 0 <= i <= |Replace(text, t, MASK)| && OccursAt(t, Replace(text, t, MASK), i);
      SurvivorsAreSurvivable(text, t, MASK, i);
    }
  }

  // ---- door codes ---------------------------------------------------------------------------------

  /** The characters of a door code (server/bbz_core/api/v1/door_action_profiles.py:33). */
  predicate IsDoorKey(c: char) {
    '0' <= c <= '9' || 'A' <= c <= 'D' || 'a' <= c <= 'd' || c == '*' || c == '#'
  }

  lemma DoorKeysInMask(i: nat)
    requires i < |MASK| && IsDoorKey(MASK[i])
    ensures 3 <= i <= 5 || i == 8
  {
  }

  lemma OnlyDacInMask(code: string, i: nat)
    requires |code| >= MIN_LEN && (forall c :: c in code ==> IsDoorKey(c)) && OccursAt(code, MASK, i)
    ensures code == "dac"
  {
    CodeKeyAt(code, i, 0);
    CodeKeyAt(code, i, 1);
    CodeKeyAt(code, i, 2);
    if |code| > 3 { CodeKeyAt(code, i, 3); }
    assert code == MASK[3..6] == "dac";
  }

  lemma CodeKeyAt(code: string, i: nat, k: nat)
    requires (forall c :: c in code ==> IsDoorKey(c)) && OccursAt(code, MASK, i) && k < |code|
    ensures 3 <= i + k <= 5 || i + k == 8
  {
    assert MASK[i + k] == MASK[i..i + |code|][k] == code[k];
    DoorKeysInMask(i + k);
  }

  /** A registered door code is masked in every text, unless it is `dac`. */
  lemma DoorCodesAreMasked(code: string)
    requires |code| >= 3 && forall c :: c in code ==> IsDoorKey(c)
    ensures Registered([Some(code)]) == {code}
    ensures AlwaysFree([code]) <==> code != "dac"
  {
    assert Some(code) in [Some(code)];
    if Occurs(code, MASK) {
      var i :| 0 <= i <= |MASK| && OccursAt(code, MASK, i);
      OnlyDacInMask(code, i);
    }
    if code == "dac" { assert OccursAt(code, MASK, 3); }
    assert !IsDoorKey(MASK[0]) && !IsDoorKey(MASK[|MASK| - 1]);
    WithoutEndsIsClear(code, MASK);
    MaskingExact([code]);
    assert [code][0] == code;
  }

  // ---- the context ------------------------------------------------------------------------------

  /** The values a block registers: absent and too-short ones are ignored. */
  function Registered(secrets: seq<Option<string>>): set<string> {
    set o | o in secrets && o.Some? && |o.value| >= MIN_LEN :: o.value
  }

  /** Code that runs under a context: sinks that scrub, exceptions, and nested blocks. */
  datatype Code = Sink | Raise | Redacting(secrets: seq<Option<string>>, body: seq<Code>)

  /** What was active at each sink that was reached, and whether the code raised. */
  datatype Outcome = Outcome(seen: seq<set<string>>, raised: bool)

  function Execute(active: set<string>, code: Code): Outcome
    decreases code
  {
    match code
    case Sink => Outcome([active], false)
    case Raise => Outcome([], true)
    case Redacting(secrets, body) => ExecuteAll(active + Registered(secrets), body)
  }

  /** One after the other; an exception ends the sequence. */
  function ExecuteAll(active: set<string>, body: seq<Code>): Outcome
    decreases body
  {
    if body == [] then Outcome([], false)
    else
      var first := Execute(active, body[0]);
      if first.raised then first
      else
        var rest := ExecuteAll(active, body[1..]);
        Outcome(first.seen + rest.seen, rest.raised)
  }

  /** One after the other: what comes later sees nothing of the blocks before it, and does
      not run after a raise. */
  lemma {:induction false} BlocksLeaveNothing(active: set<string>, a: seq<Code>, b: seq<Code>)
    ensures var first, both := ExecuteAll(active, a), ExecuteAll(active, a + b);
      both == if first.raised then first
              else Outcome(first.seen + ExecuteAll(active, b).seen, ExecuteAll(active, b).raised)
    ensures forall code :: ExecuteAll(active, [code]) == Execute(active, code)
    decreases |a|
  {
    forall code ensures ExecuteAll(active, [code]) == Execute(active, code) {
      assert [code][1..] == [];
      assert Execute(active, code).seen + [] == Execute(active, code).seen;
    }
    if a == [] {
      assert a + b == b;
    } else {
      assert (a + b)[0] == a[0] && (a + b)[1..] == a[1..] + b;
      BlocksLeaveNothing(active, a[1..], b);
    }
  }

  /** Every sink sees what was active outside and what the blocks around it registered, and
      nothing else. */
  lemma {:induction false} OnlyEnclosing(active: set<string>, code: Code)
    ensures var inside, alone := Execute(active, code), Execute({}, code);
      && inside.raised == alone.raised && |inside.seen| == |alone.seen|
      && forall i :: 0 <= i < |alone.seen| ==> inside.seen[i] == active + alone.seen[i]
    decreases code, 1
  {
    if code.Redacting? {
      OnlyEnclosingAll(active + Registered(code.secrets), code.body);
      OnlyEnclosingAll({} + Registered(code.secrets), code.body);
    }
  }

  lemma {:induction false} OnlyEnclosingAll(active: set<string>, body: seq<Code>)
    ensures var inside, alone := ExecuteAll(active, body), ExecuteAll({}, body);
      && inside.raised == alone.raised && |inside.seen| == |alone.seen|
      && forall i :: 0 <= i < |alone.seen| ==> inside.seen[i] == active + alone.seen[i]
    decreases body, 0
  {
    if body != [] {
      OnlyEnclosing(active, body[0]);
      OnlyEnclosingAll(active, body[1..]);
    }
  }


  lemma {:induction false} OuterStaysActive(active: set<string>, code: Code)
    ensures forall i :: 0 <= i < |Execute(active, code).seen| ==> active <= Execute(active, code).seen[i]
    decreases code
  {
    match code
    case Sink =>
    case Raise =>
    case Redacting(secrets, body) => OuterStaysActiveAll(active + Registered(secrets), body);
  }

  /** Nesting unions: at every sink all that the enclosing blocks registered is active. */
  lemma {:induction false} OuterStaysActiveAll(active: set<string>, body: seq<Code>)
    ensures forall i :: 0 <= i < |ExecuteAll(active, body).seen| ==> active <= ExecuteAll(active, body).seen[i]
    decreases body
  {
    if body != [] {
      OuterStaysActive(active, body[0]);
      OuterStaysActiveAll(active, body[1..]);
    }
  }

  class RedactionContext {
    var active: set<string>

    constructor ()
      ensures active == {}
    {
      active := {};
    }

    /** Register secrets for the duration of a block; the token restores the state before. */
    method Enter(secrets: seq<Option<string>>) returns (token: set<string>)
      modifies this
      ensures token == old(active)
      ensures active == old(active) + Registered(secrets)
    {
      token := active;
      var add: set<string> := {};
      var i := 0;
      while i < |secrets|
        invariant 0 <= i <= |secrets| && add == Registered(secrets[..i])
      {
        assert secrets[..i + 1] == secrets[..i] + [secrets[i]];
        if secrets[i].Some? && |secrets[i].value| >= MIN_LEN { add := add + {secrets[i].value}; }
        i := i + 1;
      }
      assert secrets[..i] == secrets;
      active := active + add;
    }

    method Exit(token: set<string>)
      modifies this
      ensures active == token
    {
      active := token;
    }

    /** Whatever runs inside, nested as deep as it may be and raising or not, the context is
        afterwards what it was before, and every sink sees exactly the blocks around it. */
    method Perform(code: Code) returns (out: Outcome)
      modifies this
      ensures active == old(active)
      ensures out == Execute(old(active), code)
      decreases code
    {
      match code
      case Sink => out := Outcome([active], false);
      case Raise => out := Outcome([], true);
      case Redacting(secrets, body) =>
        var token := Enter(secrets);
        out := Outcome([], false);
        var i := 0;
        while i < |body| && !out.raised
          invariant 0 <= i <= |body| && active == token + Registered(secrets)
          invariant ExecuteAll(active, body) ==
            if out.raised then out
            else Outcome(out.seen + ExecuteAll(active, body[i..]).seen, ExecuteAll(active, body[i..]).raised)
        {
          var step := Perform(body[i]);
          assert body[i..][1..] == body[i + 1..];
          out := Outcome(out.seen + step.seen, step.raised);
          i := i + 1;
        }
        Exit(token);
    }
  }
}
