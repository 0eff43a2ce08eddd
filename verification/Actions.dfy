/** internal/actions/actions.go and the label calls of internal/github/github.go: fusing two label actions, and applying
    one to an issue. */
module Actions {
  import opened Wrappers
  import opened GitHub
  import Model
  import TimeText

  datatype Action = Action(add: seq<string>, remove: seq<string>, comment: string)

  function Elements(s: seq<string>): set<string>
  {
    set x | x in s
  }

  ghost predicate Distinct(s: seq<string>)
  {
    forall i, j :: 0 <= i < j < |s| ==> s[i] != s[j]
  }

  // ---- Ordered sets ----

  function Without(s: seq<string>, name: string): (r: seq<string>)
    ensures |r| <= |s|
  {
    if s == [] then [] else (if s[0] == name then [] else [s[0]]) + Without(s[1..], name)
  }

  function With(s: seq<string>, name: string): seq<string>
  {
    if name in s then s else s + [name]
  }

  lemma {:induction false} WithoutElements(s: seq<string>, name: string)
    ensures Elements(Without(s, name)) == Elements(s) - {name}
    ensures Distinct(s) ==> Distinct(Without(s, name))
  {
    if s != [] {
      WithoutElements(s[1..], name);
      assert s == [s[0]] + s[1..];
      var rest := Without(s[1..], name);
      assert forall x :: x in rest <==> x in Elements(rest);
      if Distinct(s) {
        assert Distinct(s[1..]);
        assert s[0] !in s[1..];
        assert s[0] !in rest;
      }
    }
  }

  lemma {:induction false} WithoutAppends(s: seq<string>, x: string, name: string)
    ensures Without(s + [x], name) == Without(s, name) + (if x == name then [] else [x])
  {
    if s != [] {
      assert (s + [x])[1..] == s[1..] + [x];
      WithoutAppends(s[1..], x, name);
    }
  }

  /** removeWithout: filter in place, reusing the array; the first m cells hold the result. */
  method RemoveWithout(a: array<string>, n: nat, name: string) returns (m: nat)
    requires n <= a.Length
    modifies a
    ensures m <= n && a[..m] == Without(old(a[..n]), name)
  {
    m := 0;
    ghost var s := a[..n];
    for i := 0 to n
      invariant m <= i
      invariant forall k :: i <= k < n ==> a[k] == s[k]
      invariant a[..m] == Without(s[..i], name)
    {
      assert s[..i + 1] == s[..i] + [s[i]];
      WithoutAppends(s[..i], s[i], name);
      if a[i] != name {
        a[m] := a[i];
        m := m + 1;
      }
    }
    assert s[..n] == s;
  }

  class LabelSet {
    var seen: set<string>
    var values: array<string>
    var count: nat

    ghost predicate Valid()
      reads this, values
    {
      count <= values.Length && Distinct(values[..count]) && seen == Elements(values[..count])
    }

    function Contents(): seq<string>
      reads this, values
      requires count <= values.Length
    {
      values[..count]
    }

    constructor ()
      ensures Valid() && Contents() == [] && fresh(values)
    {
      seen, values, count := {}, new string[0], 0;
    }

    method Add(name: string)
      requires Valid()
      modifies this, values
      ensures Valid() && Contents() == With(old(Contents()), name)
      ensures values == old(values) || fresh(values)
    {
      if name in seen {
        return;
      }
      assert name !in Contents();
      if count == values.Length {
        var grown := new string[2 * count + 1](i => "");
        for i := 0 to count
          invariant grown[..i] == values[..i]
          invariant values == old(values) && count == old(count) && seen == old(seen) && Contents() == old(Contents())
          modifies grown
        {
          grown[i] := values[i];
        }
        values := grown;
      }
      assert Contents() == old(Contents());
      values[count] := name;
      count := count + 1;
      seen := seen + {name};
      assert Contents() == old(Contents()) + [name];
    }

    /** delete(seen, label) and removeWithout(values, label) */
    method Drop(name: string)
      requires Valid()
      modifies this, values
      ensures Valid() && Contents() == Without(old(Contents()), name)
      ensures values == old(values)
    {
      WithoutElements(Contents(), name);
      seen := seen - {name};
      count := RemoveWithout(values, count, name);
    }

    method AddAll(labels: seq<string>)
      requires Valid()
      modifies this, values
      ensures Valid() && Contents() == WithAll(old(Contents()), labels)
      ensures values == old(values) || fresh(values)
    {
      for i := 0 to |labels|
        invariant Valid() && Contents() == WithAll(old(Contents()), labels[..i])
        invariant values == old(values) || fresh(values)
      {
        assert labels[..i + 1][..i] == labels[..i];
        Add(labels[i]);
      }
      assert labels[..|labels|] == labels;
    }
  }

  function WithAll(s: seq<string>, labels: seq<string>): seq<string>
    decreases |labels|
  {
    if labels == [] then s else With(WithAll(s, labels[..|labels| - 1]), labels[|labels| - 1])
  }

  function WithoutAll(s: seq<string>, labels: seq<string>): seq<string>
    decreases |labels|
  {
    if labels == [] then s else Without(WithoutAll(s, labels[..|labels| - 1]), labels[|labels| - 1])
  }

  lemma {:induction false} WithAllElements(s: seq<string>, labels: seq<string>)
    ensures Elements(WithAll(s, labels)) == Elements(s) + Elements(labels)
    ensures Distinct(s) ==> Distinct(WithAll(s, labels))
    decreases |labels|
  {
    if labels != [] {
      var n := |labels| - 1;
      WithAllElements(s, labels[..n]);
      assert labels == labels[..n] + [labels[n]];
      var before := WithAll(s, labels[..n]);
      assert forall x :: x in before <==> x in Elements(before);
    }
  }

  lemma {:induction false} WithoutAllElements(s: seq<string>, labels: seq<string>)
    ensures Elements(WithoutAll(s, labels)) == Elements(s) - Elements(labels)
    ensures Distinct(s) ==> Distinct(WithoutAll(s, labels))
    decreases |labels|
  {
    if labels != [] {
      var n := |labels| - 1;
      WithoutAllElements(s, labels[..n]);
      WithoutElements(WithoutAll(s, labels[..n]), labels[n]);
      assert labels == labels[..n] + [labels[n]];
    }
  }

  // ---- Merge ----

  function MergedComment(base: string, result: string): string
  {
    if result == "" then base else if base == "" then result else base + "\n\n" + result
  }

  /** The result's additions, then its removals, each taken out of the opposite list. */
  function Merged(base: Action, result: Action): Action
  {
    Action(WithoutAll(WithAll(WithAll([], base.add), result.add), result.remove),
           WithAll(WithoutAll(WithAll([], base.remove), result.add), result.remove),
           MergedComment(base.comment, result.comment))
  }

  /** The result's additions: out of one list, into the other. */
  method Transfer(from: LabelSet, to: LabelSet, names: seq<string>)
    requires from.Valid() && to.Valid() && from != to && from.values != to.values
    modifies from, to, from.values, to.values
    ensures from.Valid() && to.Valid() && from.values == old(from.values) && (to.values == old(to.values) || fresh(to.values))
    ensures from.Contents() == WithoutAll(old(from.Contents()), names)
    ensures to.Contents() == WithAll(old(to.Contents()), names)
  {
    for i := 0 to |names|
      invariant from.Valid() && to.Valid() && from.values == old(from.values) && from.values != to.values
      invariant to.values == old(to.values) || fresh(to.values)
      invariant from.Contents() == WithoutAll(old(from.Contents()), names[..i])
      invariant to.Contents() == WithAll(old(to.Contents()), names[..i])
    {
      assert names[..i + 1][..i] == names[..i];
      from.Drop(names[i]);
      to.Add(names[i]);
    }
    assert names[..|names|] == names;
  }

  method Merge(base: Action, result: Action) returns (merged: Action)
    ensures merged == Merged(base, result)
  {
    var comment := base.comment;
    if result.comment != "" {
      comment := if comment != "" then comment + "\n\n" + result.comment else result.comment;
    }
    var add := new LabelSet();
    add.AddAll(base.add);
    var remove := new LabelSet();
    remove.AddAll(base.remove);
    Transfer(remove, add, result.add);
    Transfer(add, remove, result.remove);
    merged := Action(add.values[..add.count], remove.values[..remove.count], comment);
  }

  /** What a configured action is meant to do to an issue's labels: remove, then add. */
  function Meaning(labels: set<string>, action: Action): set<string>
  {
    (labels - Elements(action.remove)) + Elements(action.add)
  }

  /** What a subprocess result asks for: add, then remove. */
  function ResultMeaning(labels: set<string>, result: Action): set<string>
  {
    (labels + Elements(result.add)) - Elements(result.remove)
  }

  lemma MergedElements(base: Action, result: Action)
    ensures Elements(Merged(base, result).add) == Elements(base.add) + Elements(result.add) - Elements(result.remove)
    ensures Elements(Merged(base, result).remove) == (Elements(base.remove) - Elements(result.add)) + Elements(result.remove)
    ensures Distinct(Merged(base, result).add) && Distinct(Merged(base, result).remove)
  {
    WithAllElements([], base.add);
    WithAllElements(WithAll([], base.add), result.add);
    WithoutAllElements(WithAll(WithAll([], base.add), result.add), result.remove);
    WithAllElements([], base.remove);
    WithoutAllElements(WithAll([], base.remove), result.add);
    WithAllElements(WithoutAll(WithAll([], base.remove), result.add), result.remove);
  }

  /** Fusion: one action does what the base action and then the result would do, on every label set. */
  lemma MergePreservesMeaning(base: Action, result: Action, labels: set<string>)
    ensures Meaning(labels, Merged(base, result)) == ResultMeaning(Meaning(labels, base), result)
  {
    MergedElements(base, result);
  }

  /** The fused lists are disjoint exactly when every label the base both adds and removes is settled by the result. */
  lemma MergeDisjoint(base: Action, result: Action)
    ensures Elements(Merged(base, result).add) * Elements(Merged(base, result).remove) == {}
            <==> Elements(base.add) * Elements(base.remove) <= Elements(result.add) + Elements(result.remove)
  {
    MergedElements(base, result);
    var conflicts := Elements(base.add) * Elements(base.remove);
    var both := Elements(Merged(base, result).add) * Elements(Merged(base, result).remove);
    var settled := Elements(result.add) + Elements(result.remove);
    assert both == conflicts - settled;
    if !(conflicts <= settled) {
      var x :| x in conflicts && x !in settled;
      assert x in both;
    }
  }

  // ---- Configuration check ----

  ghost predicate WellFormed(action: Action)
  {
    Distinct(action.add) && Distinct(action.remove) && Elements(action.add) * Elements(action.remove) == {}
  }

  /** The loop of validateAction over one list: the labels met twice. */
  method Duplicates(labels: seq<string>) returns (seen: set<string>, errors: nat)
    ensures seen == Elements(labels)
    ensures errors == 0 <==> Distinct(labels)
  {
    seen, errors := {}, 0;
    for i := 0 to |labels|
      invariant seen == Elements(labels[..i])
      invariant errors == 0 <==> Distinct(labels[..i])
    {
      assert labels[..i + 1] == labels[..i] + [labels[i]];
      assert labels[i] in seen <==> exists k :: 0 <= k < i && labels[k] == labels[i];
      if labels[i] in seen {
        var k :| 0 <= k < i && labels[k] == labels[i];
        assert labels[..i + 1][k] == labels[..i + 1][i];
        errors := errors + 1;
      }
      seen := seen + {labels[i]};
    }
    assert labels[..|labels|] == labels;
  }

  /** validateAction: no errors exactly for duplicate-free, disjoint lists. */
  method ValidateAction(action: Action) returns (errors: nat)
    ensures errors == 0 <==> WellFormed(action)
  {
    var add, addErrors := Duplicates(action.add);
    var remove, removeErrors := Duplicates(action.remove);
    errors := addErrors + removeErrors + |add * remove|;
  }

  // ---- Applying an action ----

  function Tallied(seen: map<string, int>, name: string): int
  {
    if name in seen then seen[name] else 0
  }

  /** The first loop of sameLabelSet. */
  method Tally(a: seq<string>) returns (seen: map<string, int>)
    ensures forall x :: Tallied(seen, x) == multiset(a)[x]
  {
    seen := map[];
    for i := 0 to |a|
      invariant forall x :: Tallied(seen, x) == multiset(a[..i])[x]
    {
      assert a[..i + 1] == a[..i] + [a[i]];
      seen := seen[a[i] := Tallied(seen, a[i]) + 1];
    }
    assert a[..|a|] == a;
  }

  /** sameLabelSet: equal as multisets, whatever the order */
  method SameLabelSet(a: seq<string>, b: seq<string>) returns (same: bool)
    ensures same <==> multiset(a) == multiset(b)
  {
    if |a| != |b| {
      assert |multiset(a)| != |multiset(b)|;
      return false;
    }
    var seen := Tally(a);
    for i := 0 to |b|
      invariant forall x :: Tallied(seen, x) + multiset(b[..i])[x] == multiset(a)[x]
      invariant multiset(b[..i]) <= multiset(a)
    {
      assert b[..i + 1] == b[..i] + [b[i]];
      seen := seen[b[i] := Tallied(seen, b[i]) - 1];
      if seen[b[i]] < 0 {
        assert b == b[..i + 1] + b[i + 1..];
        assert multiset(b)[b[i]] > multiset(a)[b[i]];
        return false;
      }
    }
    assert b[..|b|] == b;
    SubMultisetOfSameSize(multiset(b), multiset(a));
    same := true;
  }

  lemma SubMultisetOfSameSize(a: multiset<string>, b: multiset<string>)
    requires a <= b && |a| == |b|
    ensures a == b
  {
    assert b == a + (b - a);
    assert |b - a| == 0;
  }

  /** How one call to GitHub goes: it may fail, before or after it took effect. */
  datatype Call = Works | Fails | FailsAfter

  /** How a DELETE goes. A call that is handled removes a present label, and answers 404 with some body for an absent one. */
  datatype Delivery = Handled(body: string) | Failed(took: bool, failure: Failure)

  /** How the calls of one application go; the DELETE calls by position. */
  datatype Calls = Calls(refresh: Call, deletes: nat -> Delivery, adding: Call, commenting: Call, refreshAgain: Call, storing: Call)

  /** The error text for a label and a failure. */
  type Texts = (string, Failure) -> string

  function TextsOf(site: Site): Texts
  {
    (name, f) => FailureText(site, LabelPath(site, name), f)
  }

  /** RESTClient.RemoveLabels from the i-th label on: what is left, and the text of the error that stopped it. */
  function Deleted(text: Texts, labels: set<string>, names: seq<string>, deletes: nat -> Delivery, i: nat): (set<string>, Option<string>)
    decreases |names| - i
  {
    if i >= |names| then (labels, None)
    else
      match deletes(i)
      case Failed(took, f) => (if took then labels - {names[i]} else labels, Some(text(names[i], f)))
      case Handled(body) =>
        if names[i] !in labels then (labels, Some(text(names[i], Refused(404, body))))
        else Deleted(text, labels - {names[i]}, names, deletes, i + 1)
  }

  /** No error, or one taken for an absent label. */
  predicate Tolerated(error: Option<string>)
  {
    error.None? || TakenForAbsent(error.value)
  }

  /** A prefix of the removals was done. */
  ghost predicate PartlyRemoved(labels: set<string>, after: set<string>, names: seq<string>)
  {
    exists k :: 0 <= k <= |names| && after == labels - Elements(names[..k])
  }

  /** The deletions from the i-th label on stop at the k-th: at the end, at an absent label, or at a call that fails. */
  ghost predicate StopsAt(text: Texts, labels: set<string>, names: seq<string>, deletes: nat -> Delivery, i: nat, k: nat)
    requires i <= k <= |names|
  {
    var left := labels - Elements(names[i..k]);
    && RemovedInOrder(labels, names[i..]) == RemovedInOrder(left, names[k..])
    && Deleted(text, labels, names, deletes, i)
       == (if k == |names| then (left, None)
           else match deletes(k)
                case Handled(body) => (left, Some(text(names[k], Refused(404, body))))
                case Failed(took, f) => (if took then left - {names[k]} else left, Some(text(names[k], f))))
    && (k < |names| && deletes(k).Handled? ==> names[k] !in left)
  }

  lemma StopsAtSame(text: Texts, labels: set<string>, names: seq<string>, deletes: nat -> Delivery, i: nat, k: nat)
    requires i < k <= |names| && deletes(i).Handled? && names[i] in labels
    requires StopsAt(text, labels - {names[i]}, names, deletes, i + 1, k)
    ensures StopsAt(text, labels, names, deletes, i, k)
  {
    assert names[i..][1..] == names[i + 1..];
    assert names[i..k] == [names[i]] + names[i + 1..k];
    assert labels - Elements(names[i..k]) == (labels - {names[i]}) - Elements(names[i + 1..k]);
  }

  lemma {:induction false} WhereDeletionStops(text: Texts, labels: set<string>, names: seq<string>, deletes: nat -> Delivery, i: nat)
    returns (k: nat)
    requires i <= |names|
    ensures i <= k <= |names| && StopsAt(text, labels, names, deletes, i, k)
    decreases |names| - i
  {
    if i < |names| && deletes(i).Handled? && names[i] in labels {
      k := WhereDeletionStops(text, labels - {names[i]}, names, deletes, i + 1);
      StopsAtSame(text, labels, names, deletes, i, k);
    } else {
      k := i;
      assert names[i..i] == [];
      assert labels - Elements(names[i..i]) == labels;
    }
  }

  lemma DeletedIsPrefix(text: Texts, labels: set<string>, names: seq<string>, deletes: nat -> Delivery)
    ensures PartlyRemoved(labels, Deleted(text, labels, names, deletes, 0).0, names)
  {
    var k := WhereDeletionStops(text, labels, names, deletes, 0);
    assert names[0..k] == names[..k];
    if k < |names| && deletes(k).Failed? && deletes(k).took {
      assert names[..k + 1] == names[..k] + [names[k]];
      assert labels - Elements(names[..k]) - {names[k]} == labels - Elements(names[..k + 1]);
    }
  }

  /** A 404 is taken for an absent label. */
  ghost predicate Tells404(text: Texts)
  {
    forall name, body :: TakenForAbsent(text(name, Refused(404, body)))
  }

  lemma TextsTell404(site: Site)
    ensures Tells404(TextsOf(site))
  {
    forall name, body ensures TakenForAbsent(TextsOf(site)(name, Refused(404, body))) {
      AbsentIsTaken(site, name, body);
    }
  }

  /** When no call fails, the deletions do what `RemovedInOrder` says, and their error is tolerated. */
  lemma HandledDeletions(text: Texts, labels: set<string>, names: seq<string>, deletes: nat -> Delivery)
    requires Tells404(text) && forall i :: 0 <= i < |names| ==> deletes(i).Handled?
    ensures Deleted(text, labels, names, deletes, 0).0 == RemovedInOrder(labels, names)
    ensures Tolerated(Deleted(text, labels, names, deletes, 0).1)
  {
    var k := WhereDeletionStops(text, labels, names, deletes, 0);
    assert names[0..] == names;
    if k < |names| {
      assert names[k..][0] == names[k];
    }
  }

  /** The labels an application leaves when everything after the removals works. */
  function Left(text: Texts, labels: set<string>, action: Action, deletes: nat -> Delivery): set<string>
  {
    Deleted(text, labels, action.remove, deletes, 0).0 + Elements(action.add)
  }

  /** Every call the action needs works, and the removals end without an error or with a tolerated one. */
  predicate Succeeds(text: Texts, labels: set<string>, action: Action, calls: Calls)
  {
    && calls.refresh == Works && Tolerated(Deleted(text, labels, action.remove, calls.deletes, 0).1)
    && (action.add != [] ==> calls.adding == Works)
    && (!Model.Blank(action.comment) ==> calls.commenting == Works)
    && (action.remove != [] || action.add != [] || !Model.Blank(action.comment) ==> calls.refreshAgain == Works)
    && calls.storing == Works
  }

  /** One issue on GitHub, which no one else edits meanwhile. */
  class Issue {
    const site: Site
    var labels: set<string>
    var comments: seq<string>

    constructor (site: Site, labels: set<string>)
      ensures this.site == site && this.labels == labels && comments == []
    {
      this.site, this.labels, comments := site, labels, [];
    }

    /** RESTClient.RemoveLabels: one DELETE per label, stopping at the first error, whose text it returns. */
    method RemoveLabels(names: seq<string>, deletes: nat -> Delivery) returns (error: Option<string>)
      modifies this`labels
      ensures (labels, error) == Deleted(TextsOf(site), old(labels), names, deletes, 0)
      ensures PartlyRemoved(old(labels), labels, names)
      ensures (forall i :: 0 <= i < |names| ==> deletes(i).Handled?) ==>
                labels == RemovedInOrder(old(labels), names) && Tolerated(error)
    {
      var text := TextsOf(site);
      DeletedIsPrefix(text, labels, names, deletes);
      TextsTell404(site);
      if forall i :: 0 <= i < |names| ==> deletes(i).Handled? {
        HandledDeletions(text, labels, names, deletes);
      }
      for i := 0 to |names|
        invariant Deleted(text, old(labels), names, deletes, 0) == Deleted(text, labels, names, deletes, i)
      {
        match deletes(i) {
          case Failed(took, f) =>
            if took {
              labels := labels - {names[i]};
            }
            return Some(text(names[i], f));
          case Handled(body) =>
            if names[i] !in labels {
              return Some(text(names[i], Refused(404, body)));
            }
            labels := labels - {names[i]};
        }
      }
      error := None;
    }

    method AddLabels(names: seq<string>, adding: Call) returns (ok: bool)
      modifies this`labels
      ensures labels == if adding == Fails then old(labels) else old(labels) + Elements(names)
      ensures ok <==> adding == Works
    {
      if adding != Fails {
        labels := labels + Elements(names);
      }
      ok := adding == Works;
    }

    /** ApplyWithHooks: a removal error whose text is taken for an absent label is tolerated. When no DELETE fails, success
        means the effect `Applied` describes; a failure leaves a prefix of the removals done, perhaps with the additions. */
    method Apply(action: Action, calls: Calls) returns (ok: bool, changed: bool)
      modifies this
      ensures ok <==> Succeeds(TextsOf(site), old(labels), action, calls)
      ensures ok ==> labels == Left(TextsOf(site), old(labels), action, calls.deletes) && (changed <==> labels != old(labels))
      ensures ok && (forall i :: 0 <= i < |action.remove| ==> calls.deletes(i).Handled?) ==>
                labels == Applied(old(labels), action)
      ensures ok ==> comments == old(comments) + (if Model.Blank(action.comment) then [] else [action.comment])
      ensures !ok ==> PartlyRemoved(old(labels), labels, action.remove) || labels == Left(TextsOf(site), old(labels), action, calls.deletes)
      ensures comments == old(comments) || comments == old(comments) + [action.comment]
    {
      assert action.remove[..0] == [];
      changed := false;
      if calls.refresh != Works {
        return false, false;
      }
      var before := labels;
      if action.remove != [] {
        var error := RemoveLabels(action.remove, calls.deletes);
        if error.Some? && !TakenForAbsent(error.value) {
          return false, false;
        }
      }
      if action.add != [] {
        ok := AddLabels(action.add, calls.adding);
        if !ok {
          return;
        }
      }
      assert labels == Left(TextsOf(site), before, action, calls.deletes);
      if !Model.Blank(action.comment) {
        if calls.commenting != Fails {
          comments := comments + [action.comment];
        }
        if calls.commenting != Works {
          return false, false;
        }
      }
      var mutated := action.remove != [] || action.add != [] || !Model.Blank(action.comment);
      ok := (mutated ==> calls.refreshAgain == Works) && calls.storing == Works;
      changed := ok && before != labels;
    }
  }

  /** RemoveLabels when no call fails: it stops at the first absent label. */
  function RemovedInOrder(labels: set<string>, names: seq<string>): set<string>
  {
    if names == [] || names[0] !in labels then labels else RemovedInOrder(labels - {names[0]}, names[1..])
  }

  function Applied(labels: set<string>, action: Action): set<string>
  {
    RemovedInOrder(labels, action.remove) + Elements(action.add)
  }

  /** What the stopped removal leaves behind. */
  lemma {:induction false} RemovedInOrderIs(labels: set<string>, names: seq<string>)
    requires Distinct(names)
    ensures forall x :: x in RemovedInOrder(labels, names) <==>
                          x in labels && forall j :: 0 <= j < |names| && names[j] == x ==>
                                           exists i :: 0 <= i < j && names[i] !in labels
  {
    if names != [] && names[0] in labels {
      var rest := labels - {names[0]};
      RemovedInOrderIs(rest, names[1..]);
      forall x ensures x in RemovedInOrder(labels, names) <==>
                         x in labels && forall j :: 0 <= j < |names| && names[j] == x ==>
                                          exists i :: 0 <= i < j && names[i] !in labels
      {
        ShiftedStop(labels, names, x);
      }
    }
  }

  lemma ShiftedStop(labels: set<string>, names: seq<string>, x: string)
    requires Distinct(names) && names != [] && names[0] in labels
    ensures (x in labels - {names[0]} && forall j :: 0 <= j < |names| - 1 && names[1..][j] == x ==>
                                           exists i :: 0 <= i < j && names[1..][i] !in labels - {names[0]})
            <==> (x in labels && forall j :: 0 <= j < |names| && names[j] == x ==>
                                   exists i :: 0 <= i < j && names[i] !in labels)
  {
    if x == names[0] {
    } else {
      forall j {:trigger names[1..][j]} | 0 <= j < |names| - 1
        ensures (exists i :: 0 <= i < j && names[1..][i] !in labels - {names[0]})
                <==> (exists i :: 0 <= i < j + 1 && names[i] !in labels)
      {
        if i :| 0 <= i < j && names[1..][i] !in labels - {names[0]} {
          assert names[i + 1] == names[1..][i];
        }
        if i :| 0 <= i < j + 1 && names[i] !in labels {
          assert names[1..][i - 1] == names[i];
        }
      }
    }
  }

  /** A label that is still on the issue follows an absent one in the removal list, and is not added again. */
  predicate Blocked(labels: set<string>, action: Action)
  {
    exists i, j :: 0 <= i < j < |action.remove| && action.remove[i] !in labels
                   && action.remove[j] in labels && action.remove[j] !in action.add
  }

  /** Applying an action does what it means, remove then add, exactly when no removal is blocked: the DELETE loop stops at
      the first absent label and the caller tolerates that. */
  lemma AppliesItsMeaning(labels: set<string>, action: Action)
    requires Distinct(action.remove)
    ensures Applied(labels, action) == Meaning(labels, action) <==> !Blocked(labels, action)
  {
    RemovedInOrderIs(labels, action.remove);
    if Blocked(labels, action) {
      var i, j :| 0 <= i < j < |action.remove| && action.remove[i] !in labels
                  && action.remove[j] in labels && action.remove[j] !in action.add;
      assert action.remove[j] in Applied(labels, action) && action.remove[j] !in Meaning(labels, action);
    } else {
      forall x ensures x in Applied(labels, action) <==> x in Meaning(labels, action) {
        if x in labels && x in action.remove && x !in action.add {
          var j :| 0 <= j < |action.remove| && action.remove[j] == x;
          assert forall i :: 0 <= i < j ==> action.remove[i] in labels;
        }
      }
    }
  }

  /** A fused action, applied, does what the base action and then the result ask for, exactly when nothing blocks it. */
  lemma FusedActionApplied(base: Action, result: Action, labels: set<string>)
    ensures Applied(labels, Merged(base, result)) == ResultMeaning(Meaning(labels, base), result)
            <==> !Blocked(labels, Merged(base, result))
  {
    MergedElements(base, result);
    MergePreservesMeaning(base, result, labels);
    AppliesItsMeaning(labels, Merged(base, result));
  }

  lemma DistinctSplits(s: seq<string>, k: nat)
    requires Distinct(s) && k <= |s|
    ensures Elements(s) == Elements(s[..k]) + Elements(s[k..]) && Elements(s[..k]) !! Elements(s[k..])
  {
    assert s == s[..k] + s[k..];
    forall i, j | 0 <= i < k && 0 <= j < |s| - k ensures s[..k][i] != s[k..][j] {
      assert s[i] != s[k + j];
    }
  }

  // ---- Failures taken for absent labels ----

  /** Every call that fails fails in an admitted way. */
  ghost predicate Admits(admitted: Failure -> bool, deletes: nat -> Delivery)
  {
    forall i :: deletes(i).Failed? ==> admitted(deletes(i).failure)
  }

  /** Whatever the labels and however the calls fail, tolerated removals have the effect `Applied` describes. */
  ghost predicate SuccessIsApplied(text: Texts, action: Action, admitted: Failure -> bool)
  {
    forall labels: set<string>, deletes: nat -> Delivery
      {:trigger Deleted(text, labels, action.remove, deletes, 0)} ::
      Admits(admitted, deletes) && Tolerated(Deleted(text, labels, action.remove, deletes, 0).1) ==>
        Left(text, labels, action, deletes) == Applied(labels, action)
  }

  /** This failure at the i-th removal has a text that is taken for an absent label. */
  predicate Disguised(text: Texts, action: Action, i: nat, f: Failure)
  {
    i < |action.remove| && TakenForAbsent(text(action.remove[i], f))
  }

  /** Nothing is lost by a disguised failure, as it and all later removals are added again anyway. */
  ghost predicate DisguisesAreHarmless(text: Texts, action: Action, admitted: Failure -> bool)
  {
    forall i: nat, f: Failure :: admitted(f) && Disguised(text, action, i, f) ==> Elements(action.remove[i..]) <= Elements(action.add)
  }

  lemma {:induction false} RemovedInOrderBounds(labels: set<string>, names: seq<string>)
    ensures labels - Elements(names) <= RemovedInOrder(labels, names) <= labels
  {
    if names != [] && names[0] in labels {
      RemovedInOrderBounds(labels - {names[0]}, names[1..]);
      assert names == [names[0]] + names[1..];
    }
  }

  lemma HarmlessDisguise(text: Texts, labels: set<string>, action: Action, admitted: Failure -> bool, deletes: nat -> Delivery)
    requires DisguisesAreHarmless(text, action, admitted) && Admits(admitted, deletes)
    requires Tolerated(Deleted(text, labels, action.remove, deletes, 0).1)
    ensures Left(text, labels, action, deletes) == Applied(labels, action)
  {
    var names := action.remove;
    var k := WhereDeletionStops(text, labels, names, deletes, 0);
    var left := labels - Elements(names[0..k]);
    assert names[0..] == names;
    RemovedInOrderBounds(left, names[k..]);
    if k < |names| {
      assert names[k..][0] == names[k] && names[k] in Elements(names[k..]);
      if deletes(k).Failed? {
        assert Disguised(text, action, k, deletes(k).failure);
      }
    }
  }

  /** With all labels present, the deletions get to the call that fails. */
  lemma {:induction false} ReachesFailure(text: Texts, labels: set<string>, names: seq<string>, deletes: nat -> Delivery,
                                          i: nat, k: nat, f: Failure)
    requires i <= k < |names| && deletes(k) == Failed(false, f) && Distinct(names) && Elements(names[i..]) <= labels
    requires forall j :: i <= j < k ==> deletes(j).Handled?
    ensures Deleted(text, labels, names, deletes, i) == (labels - Elements(names[i..k]), Some(text(names[k], f)))
    decreases k - i
  {
    if i == k {
      assert labels - Elements(names[i..k]) == labels;
    } else {
      assert names[i] == names[i..][0] && names[i] in Elements(names[i..]);
      assert names[i..] == [names[i]] + names[i + 1..] && names[i..k] == [names[i]] + names[i + 1..k];
      assert Distinct(names[i..]);
      assert Elements(names[i + 1..]) <= labels - {names[i]};
      ReachesFailure(text, labels - {names[i]}, names, deletes, i + 1, k, f);
      assert labels - Elements(names[i..k]) == (labels - {names[i]}) - Elements(names[i + 1..k]);
    }
  }

  lemma AllPresent(action: Action)
    requires Distinct(action.remove)
    ensures Applied(Elements(action.remove), action) == Elements(action.add)
  {
    var labels := Elements(action.remove);
    assert forall i :: 0 <= i < |action.remove| ==> action.remove[i] in labels;
    AppliesItsMeaning(labels, action);
  }

  /** Only the i-th call fails. */
  function OneFails(i: nat, f: Failure): nat -> Delivery
  {
    j => if j == i then Failed(false, f) else Handled("")
  }

  /** A disguise with a removal still to come that is not added again: with all labels present, that one stays. */
  lemma DisguiseKeeps(text: Texts, action: Action, i: nat, f: Failure) returns (x: string)
    requires Distinct(action.remove) && Disguised(text, action, i, f)
    requires !(Elements(action.remove[i..]) <= Elements(action.add))
    ensures var labels, deletes := Elements(action.remove), OneFails(i, f);
            && Deleted(text, labels, action.remove, deletes, 0).1 == Some(text(action.remove[i], f))
            && x in Left(text, labels, action, deletes) && x !in Applied(labels, action)
  {
    var names, labels, deletes := action.remove, Elements(action.remove), OneFails(i, f);
    assert names[0..] == names && names[0..i] == names[..i];
    ReachesFailure(text, labels, names, deletes, 0, i, f);
    DistinctSplits(names, i);
    AllPresent(action);
    x :| x in Elements(names[i..]) && x !in Elements(action.add);
  }

  lemma HarmfulDisguise(text: Texts, action: Action, admitted: Failure -> bool, i: nat, f: Failure)
    requires Distinct(action.remove) && admitted(f) && Disguised(text, action, i, f)
    requires !(Elements(action.remove[i..]) <= Elements(action.add))
    ensures !SuccessIsApplied(text, action, admitted)
  {
    var x := DisguiseKeeps(text, action, i, f);
    assert Admits(admitted, OneFails(i, f));
    assert Left(text, Elements(action.remove), action, OneFails(i, f)) != Applied(Elements(action.remove), action);
  }

  /** Success always means the effect `Applied` describes if and only if every failure that may occur and is taken for an
      absent label comes when only labels are left to remove that are added again. */
  lemma SuccessMeansApplied(text: Texts, action: Action, admitted: Failure -> bool)
    requires Distinct(action.remove)
    ensures SuccessIsApplied(text, action, admitted) <==> DisguisesAreHarmless(text, action, admitted)
  {
    if DisguisesAreHarmless(text, action, admitted) {
      forall labels: set<string>, deletes: nat -> Delivery
        | Admits(admitted, deletes) && Tolerated(Deleted(text, labels, action.remove, deletes, 0).1)
        ensures Left(text, labels, action, deletes) == Applied(labels, action)
      {
        HarmlessDisguise(text, labels, action, admitted, deletes);
      }
    } else {
      var i: nat, f: Failure :| admitted(f) && Disguised(text, action, i, f) && !(Elements(action.remove[i..]) <= Elements(action.add));
      HarmfulDisguise(text, action, admitted, i, f);
    }
  }

  /** The path of the label, the status, what is left of the body, or the text about a missing answer misleads. */
  predicate Misleads(site: Site, name: string, f: Failure)
  {
    match f
    case Refused(code, body) =>
      Contains(LabelPath(site, name), "404") || Contains(TimeText.Pad(code, 1), "404") || TakenForAbsent(Redact(body, site.token))
    case Unanswered(why) => TakenForAbsent(Redact(UnansweredText(site.base + LabelPath(site, name), why), site.token))
  }

  lemma MisleadsIsTaken(site: Site, name: string, f: Failure)
    ensures Misleads(site, name, f) <==> TakenForAbsent(TextsOf(site)(name, f))
  {
    if f.Refused? {
      RefusalTakenForAbsent(site, name, f.code, f.body);
    }
  }

  ghost predicate AnyTaken(text: Texts, action: Action, admitted: Failure -> bool)
  {
    exists name, f: Failure :: name in action.remove && admitted(f) && TakenForAbsent(text(name, f))
  }

  lemma WellFormedDisguises(text: Texts, action: Action, admitted: Failure -> bool)
    requires WellFormed(action)
    ensures DisguisesAreHarmless(text, action, admitted) <==> !AnyTaken(text, action, admitted)
  {
    if AnyTaken(text, action, admitted) {
      var name, f: Failure :| name in action.remove && admitted(f) && TakenForAbsent(text(name, f));
      var i: nat :| i < |action.remove| && action.remove[i] == name;
      assert Disguised(text, action, i, f);
      assert action.remove[i..][0] == name && name in Elements(action.remove[i..]);
      assert name in Elements(action.add) ==> name in Elements(action.add) * Elements(action.remove);
    }
  }

  /** For an action the configuration check accepts, success always means the effect `Applied` describes if and only if no
      failure that may occur at one of its removals misleads. */
  lemma ValidatedSuccess(site: Site, action: Action, admitted: Failure -> bool)
    requires WellFormed(action)
    ensures SuccessIsApplied(TextsOf(site), action, admitted)
            <==> forall name, f: Failure :: name in action.remove && admitted(f) ==> !Misleads(site, name, f)
  {
    SuccessMeansApplied(TextsOf(site), action, admitted);
    WellFormedDisguises(TextsOf(site), action, admitted);
    forall name, f: Failure ensures Misleads(site, name, f) <==> TakenForAbsent(TextsOf(site)(name, f)) {
      MisleadsIsTaken(site, name, f);
    }
  }

  /** On issue 404 every refusal of a removal counts as done: one label, and a status 500. */
  lemma Issue404(site: Site)
    requires site.number == 404
    ensures var action, failing := Action([], ["a"], ""), OneFails(0, Refused(500, ""));
            && Tolerated(Deleted(TextsOf(site), {"a"}, action.remove, failing, 0).1)
            && Left(TextsOf(site), {"a"}, action, failing) == {"a"} && Applied({"a"}, action) == {}
  {
    PathOfIssue404(site, "a");
    MisleadsIsTaken(site, "a", Refused(500, ""));
    assert ["a"][1..] == [];
    assert RemovedInOrder({"a"} - {"a"}, []) == {};
  }

  lemma PathOfIssue404(site: Site, name: string)
    requires site.number == 404
    ensures Contains(LabelPath(site, name), "404")
  {
    Decimal404();
    ContainsAt("404", "404", 0);
    PathMentions404(site, name);
  }

  /** Retrying an action whose removals broke off after the first k removes nothing more, as the first label is absent now.
      That counts as success, and the retry does what the action means exactly when nothing was left to remove. */
  lemma RetryAfterBreak(labels: set<string>, action: Action, k: nat)
    requires Distinct(action.remove) && 0 < k <= |action.remove|
    ensures var left := labels - Elements(action.remove[..k]);
            && RemovedInOrder(left, action.remove) == left
            && (Applied(left, action) == Meaning(labels, action)
                <==> labels * Elements(action.remove[k..]) <= Elements(action.add))
  {
    var left, rest := labels - Elements(action.remove[..k]), Elements(action.remove[k..]);
    DistinctSplits(action.remove, k);
    assert action.remove[0] == action.remove[..k][0];
    assert Meaning(labels, action) == (left - rest) + Elements(action.add);
    if !(labels * rest <= Elements(action.add)) {
      var x :| x in labels * rest && x !in action.add;
      assert x in Applied(left, action) && x !in Meaning(labels, action);
    }
  }

  /** An absent label before a present one: the present one survives its removal. */
  lemma AbsentLabelStopsRemoval()
    ensures Applied({"agent-running"}, Action([], ["missing", "agent-running"], "")) == {"agent-running"}
    ensures Meaning({"agent-running"}, Action([], ["missing", "agent-running"], "")) == {}
  {
    assert "missing" != "agent-running";
    assert ["missing", "agent-running"][1] == "agent-running";
  }
}
