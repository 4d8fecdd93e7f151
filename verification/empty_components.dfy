/**
 * The empty-component cleanup sample: every component of the design other than the root
 * that has no occurrences, bodies, features, sketches or construction geometry is scheduled;
 * the distinct occurrences of each scheduled component are deleted; and a message lists the
 * names of the deleted components.
 */
module EmptyComponents {
  import opened Seqs
  import opened Text
  import opened Wrappers

  /** A component: its identity, its name and the sizes of its seven collections. */
  datatype Component = Component(
    id: nat, name: string,
    occurrences: nat, bodies: nat, features: nat, sketches: nat,
    planes: nat, axes: nat, points: nat)

  /** The design: all its components, the root component's identity, and the occurrences of
      each component found anywhere below the root (by occurrence identity). */
  datatype Design = Design(components: seq<Component>, rootId: nat, occurrencesOf: map<nat, seq<nat>>)

  /** All seven collections of the component are empty. */
  predicate IsEmpty(c: Component)
  {
    c.occurrences == 0 && c.bodies == 0 && c.features == 0 && c.sketches == 0
    && c.planes == 0 && c.axes == 0 && c.points == 0
  }

  /** The component is empty and is not the root. */
  predicate Scheduled(c: Component, rootId: nat)
  {
    c.id != rootId && IsEmpty(c)
  }

  function ScheduledBy(rootId: nat): Component -> bool
  {
    c => Scheduled(c, rootId)
  }

  /** The scan over all components: the root is skipped, and an empty component is appended to
      the list of components to delete. */
  method FindEmptyComponents(components: seq<Component>, rootId: nat) returns (toDelete: seq<Component>)
    ensures toDelete == Filter(components, ScheduledBy(rootId))
  {
    toDelete := [];
    var i := 0;
    while i < |components|
      invariant i <= |components|
      invariant toDelete == Filter(components[..i], ScheduledBy(rootId))
    {
      var component := components[i];
      assert components[..i + 1] == components[..i] + [component];
      FilterAppend(components[..i], [component], ScheduledBy(rootId));
      if component.id == rootId {
        i := i + 1;
        continue;
      }
      if IsEmpty(component) {
        toDelete := toDelete + [component];
      }
      i := i + 1;
    }
    assert components[..i] == components;
  }

  /** A component is scheduled exactly when it is one of the design's components, not the root
      and empty; the schedule keeps the order of the design's list. */
  lemma ScheduleIsExact(components: seq<Component>, rootId: nat, c: Component)
    ensures c in Filter(components, ScheduledBy(rootId)) <==> c in components && c.id != rootId && IsEmpty(c)
    ensures IsSubsequence(Filter(components, ScheduledBy(rootId)), components)
  {
    FilterMembership(components, ScheduledBy(rootId), c);
    FilterIsSubsequence(components, ScheduledBy(rootId));
  }

  /** The loop that builds the unique occurrences: each occurrence is compared by identity with
      the ones kept so far, and appended when the comparison runs off the end. */
  method UniqueOccurrences(occurrences: seq<nat>) returns (unique: seq<nat>)
    ensures unique == FirstOccurrences(occurrences)
    ensures NoDuplicates(unique)
    ensures forall x :: x in unique <==> x in occurrences
  {
    unique := [];
    var i := 0;
    while i < |occurrences|
      invariant i <= |occurrences|
      invariant unique == FirstOccurrences(occurrences[..i])
    {
      var occurrence := occurrences[i];
      var index := 0;
      var k := 0;
      while k < |unique|
        invariant k <= |unique|
        invariant index == k
        invariant occurrence !in unique[..k]
      {
        if occurrence == unique[k] {
          break;
        }
        index := k + 1;
        k := k + 1;
      }
      FirstOccurrencesProperties(occurrences[..i]);
      assert index == |unique| <==> occurrence !in unique;
      assert occurrences[..i + 1][..i] == occurrences[..i];
      if index == |unique| {
        unique := unique + [occurrence];
      }
      i := i + 1;
    }
    assert occurrences[..i] == occurrences;
    FirstOccurrencesProperties(occurrences);
  }

  /** The occurrences of a component the host reports, none when it reports nothing. */
  function OccurrencesOf(design: Design, c: Component): seq<nat>
  {
    if c.id in design.occurrencesOf then design.occurrencesOf[c.id] else []
  }

  /** The `deleteMe` calls for the given components, in order: each component's distinct
      occurrences in first-occurrence order. */
  function DeleteCalls(design: Design, cs: seq<Component>): seq<nat>
  {
    if cs == [] then []
    else DeleteCalls(design, cs[..|cs| - 1]) + FirstOccurrences(OccurrencesOf(design, cs[|cs| - 1]))
  }

  /** Every deleted occurrence belongs to a scheduled component, and every occurrence of a
      scheduled component is deleted. */
  lemma {:induction false} DeleteCallsCover(design: Design, cs: seq<Component>, x: nat)
    ensures x in DeleteCalls(design, cs) <==> exists k :: 0 <= k < |cs| && x in OccurrencesOf(design, cs[k])
  {
    if cs != [] {
      var prefix := cs[..|cs| - 1];
      var last := cs[|cs| - 1];
      DeleteCallsCover(design, prefix, x);
      FirstOccurrencesProperties(OccurrencesOf(design, last));
      if x in OccurrencesOf(design, last) {
        assert 0 <= |cs| - 1 < |cs| && x in OccurrencesOf(design, cs[|cs| - 1]);
      }
      if exists k :: 0 <= k < |cs| && x in OccurrencesOf(design, cs[k]) {
        var k :| 0 <= k < |cs| && x in OccurrencesOf(design, cs[k]);
        if k < |cs| - 1 {
          assert cs[k] == prefix[k];
        }
      }
    }
  }

  /** The first line of the message for `n` deleted components. */
  function Header(n: nat): (h: string)
    requires n >= 1
    ensures n == 1 ==> h == "1 empty component deleted"
    ensures n > 1 ==> h == NatToString(n) + " empty components"
  {
    if n > 1 then NatToString(n) + " empty component" + "s"
    else
      assert NatToString(1) == "1";
      NatToString(n) + " empty component" + " deleted"
  }

  const NoneFound := "No empty components found."

  /** The message-building code: the header, a blank line, then each name on a line of its
      own. */
  method BuildMessage(deleted: seq<string>) returns (msg: string)
    ensures deleted == [] ==> msg == NoneFound
    ensures deleted != [] ==> msg == Header(|deleted|) + "\n\n" + Join([""] + deleted, '\n')
  {
    if |deleted| == 0 {
      msg := NoneFound;
    } else {
      if |deleted| > 1 {
        msg := NatToString(|deleted|) + " empty component" + "s";
      } else {
        msg := NatToString(|deleted|) + " empty component" + " deleted";
      }
      msg := msg + "\n\n";
      var i := 0;
      while i < |deleted|
        invariant i <= |deleted|
        invariant msg == Header(|deleted|) + "\n\n" + Join([""] + deleted[..i], '\n')
      {
        JoinAppend([""] + deleted[..i], deleted[i], '\n');
        assert [""] + deleted[..i + 1] == [""] + deleted[..i] + [deleted[i]];
        msg := msg + "\n" + deleted[i];
        i := i + 1;
      }
      assert deleted[..i] == deleted;
    }
  }

  lemma HeaderHasNoBreak(n: nat)
    requires n >= 1
    ensures '\n' !in Header(n)
  {
    var digits := NatToString(n);
    assert forall k :: 0 <= k < |digits| ==> IsDigit(digits[k]);
    assert '\n' !in digits;
  }

  /** Read back line by line, a message for deleted components is the header, two empty lines,
      then the names in order. */
  lemma MessageLines(deleted: seq<string>)
    requires deleted != []
    requires forall k :: 0 <= k < |deleted| ==> '\n' !in deleted[k]
    ensures Split(Header(|deleted|) + "\n\n" + Join([""] + deleted, '\n'), '\n') == [Header(|deleted|), "", ""] + deleted
  {
    HeaderHasNoBreak(|deleted|);
    TitledLines(Header(|deleted|), deleted);
  }

  lemma TitledLines(head: string, names: seq<string>)
    requires '\n' !in head
    requires forall k :: 0 <= k < |names| ==> '\n' !in names[k]
    ensures Split(head + "\n\n" + Join([""] + names, '\n'), '\n') == [head, "", ""] + names
  {
    var blank: string := "";
    var tail := [blank] + names;
    JoinCons(blank, tail, '\n');
    JoinCons(head, [blank] + tail, '\n');
    assert [head, blank, blank] + names == [head] + ([blank] + tail);
    assert head + "\n\n" + Join(tail, '\n') == head + ['\n'] + (blank + ['\n'] + Join(tail, '\n'));
    var pieces := [head, blank, blank] + names;
    forall k | 0 <= k < |pieces|
      ensures '\n' !in pieces[k]
    {
      if k >= 3 {
        assert pieces[k] == names[k - 3];
      }
    }
    SplitJoin(pieces, '\n');
  }

  /** The whole script: without a design only a message is shown; otherwise the scheduled
      components' distinct occurrences are deleted and their names reported. */
  method Run(design: Option<Design>) returns (deleteCalls: seq<nat>, names: seq<string>, msg: string)
    ensures design.None? ==> deleteCalls == [] && names == [] && msg == "No active Fusion design"
    ensures design.Some? ==>
      var toDelete := Filter(design.value.components, ScheduledBy(design.value.rootId));
      && deleteCalls == DeleteCalls(design.value, toDelete)
      && |names| == |toDelete|
      && (forall k :: 0 <= k < |names| ==> names[k] == toDelete[k].name)
      && (names == [] ==> msg == NoneFound)
      && (names != [] ==> msg == Header(|names|) + "\n\n" + Join([""] + names, '\n'))
  {
    if design.None? {
      return [], [], "No active Fusion design";
    }
    var d := design.value;
    var toDelete := FindEmptyComponents(d.components, d.rootId);
    deleteCalls := [];
    names := [];
    var i := 0;
    while i < |toDelete|
      invariant i <= |toDelete|
      invariant deleteCalls == DeleteCalls(d, toDelete[..i])
      invariant |names| == i
      invariant forall k :: 0 <= k < i ==> names[k] == toDelete[k].name
    {
      var component := toDelete[i];
      var name := component.name;
      var unique := UniqueOccurrences(OccurrencesOf(d, component));
      assert toDelete[..i + 1][..i] == toDelete[..i];
      deleteCalls := deleteCalls + unique;
      names := names + [name];
      i := i + 1;
    }
    assert toDelete[..i] == toDelete;
    msg := BuildMessage(names);
  }
}
