// GetDMChannel of internal/server/store/sqlite.go: finding the direct-message channel that has exactly
// the given members, by a self-join for two of them and by GROUP BY / HAVING for more.
module DmLookup {
  import opened Collections

  datatype Channel = Channel(workspace: string, kind: string)

  // channel_members has the primary key (channel_id, member_id), so it is a set of pairs.
  datatype Db = Db(channels: map<string, Channel>, members: set<(string, string)>)

  function RowsOf(db: Db, channel: string): set<(string, string)> {
    set p | p in db.members && p.0 == channel
  }

  function MembersOf(db: Db, channel: string): set<string> {
    set p | p in RowsOf(db, channel) :: p.1
  }

  function ToSet(ids: seq<string>): set<string> { set id | id in ids }

  function KindFor(ids: seq<string>): string { if |ids| == 2 then "dm" else "group_dm" }

  predicate InScope(db: Db, workspace: string, ids: seq<string>, channel: string) {
    && channel in db.channels
    && db.channels[channel].workspace == workspace
    && db.channels[channel].kind == KindFor(ids)
  }

  // A channel of the asked workspace, of the type for so many members.
  predicate IsDirect(db: Db, workspace: string, count: nat, channel: string) {
    && channel in db.channels && db.channels[channel].workspace == workspace
    && (if count == 2 then db.channels[channel].kind == "dm" else db.channels[channel].kind == "group_dm")
  }

  ghost predicate HasExactly(db: Db, channel: string, ids: seq<string>) {
    forall m :: (channel, m) in db.members <==> m in ids
  }

  // ---- The two queries ----

  // cm1 JOIN cm2 on the channel, one row for each of the two members, and two rows in all.
  function SelfJoin(db: Db, workspace: string, ids: seq<string>): set<string>
    requires |ids| == 2
  {
    set ch | ch in db.channels.Keys
             && InScope(db, workspace, ids, ch)
             && (ch, ids[0]) in db.members && (ch, ids[1]) in db.members
             && |RowsOf(db, ch)| == 2
  }

  // Rows whose member is in the list, grouped by channel; as many as the list is long, and no others.
  function GroupHaving(db: Db, workspace: string, ids: seq<string>): set<string> {
    set ch | ch in db.channels.Keys
             && InScope(db, workspace, ids, ch)
             && |set p | p in RowsOf(db, ch) && p.1 in ids| == |ids|
             && |RowsOf(db, ch)| == |ids|
  }

  function Selected(db: Db, workspace: string, ids: seq<string>): set<string>
    requires |ids| >= 2
  {
    if |ids| == 2 then SelfJoin(db, workspace, ids) else GroupHaving(db, workspace, ids)
  }

  // What the lookup is for.
  function ExactMatches(db: Db, workspace: string, ids: seq<string>): set<string> {
    set ch | ch in db.channels.Keys && InScope(db, workspace, ids, ch) && MembersOf(db, ch) == ToSet(ids)
  }

  // The first row, in whatever order the engine produces them.
  method GetDMChannel(db: Db, workspace: string, ids: seq<string>) returns (found: Option<string>)
    ensures |ids| < 2 ==> found == None
    ensures |ids| >= 2 ==>
      && (found.Some? <==> Selected(db, workspace, ids) != {})
      && (found.Some? ==> found.value in Selected(db, workspace, ids))
    ensures |ids| >= 2 && Distinct(ids) ==>
      && (found.Some? <==> ExactMatches(db, workspace, ids) != {})
      && (found.Some? ==> found.value in ExactMatches(db, workspace, ids))
    ensures found.Some? ==> IsDirect(db, workspace, |ids|, found.value)
    ensures |ids| >= 2 && Distinct(ids) ==>
      && (found.Some? ==> HasExactly(db, found.value, ids))
      && (found.None? ==> forall ch :: IsDirect(db, workspace, |ids|, ch) ==> !HasExactly(db, ch, ids))
  {
    if |ids| < 2 {
      return None;
    }
    if Distinct(ids) {
      QueriesExact(db, workspace, ids);
      forall ch
        ensures HasExactly(db, ch, ids) <==> MembersOf(db, ch) == ToSet(ids)
      {
        SameMembers(db, ids, ch);
      }
      assert forall ch :: ch in ExactMatches(db, workspace, ids) <==> IsDirect(db, workspace, |ids|, ch) && HasExactly(db, ch, ids);
    }
    var rows := Selected(db, workspace, ids);
    if rows == {} {
      return None;
    }
    var row :| row in rows;
    return Some(row);
  }

  lemma {:induction false} SameMembers(db: Db, ids: seq<string>, channel: string)
    ensures HasExactly(db, channel, ids) <==> MembersOf(db, channel) == ToSet(ids)
  {
    RowCounts(db, ids, channel);
    if MembersOf(db, channel) == ToSet(ids) {
      forall m
        ensures (channel, m) in db.members <==> m in ids
      {
        assert (channel, m) in db.members <==> m in MembersOf(db, channel);
        assert m in ids <==> m in ToSet(ids);
      }
    }
  }

  // ---- Counting ----

  lemma {:induction false} CountMembers(rows: set<(string, string)>, channel: string)
    requires forall p :: p in rows ==> p.0 == channel
    ensures |set p | p in rows :: p.1| == |rows|
  {
    if rows != {} {
      var r :| r in rows;
      var rest := rows - {r};
      CountMembers(rest, channel);
      assert r.1 !in (set p | p in rest :: p.1);
      assert (set p | p in rows :: p.1) == (set p | p in rest :: p.1) + {r.1};
    }
  }

  lemma {:induction false} CountDistinct(ids: seq<string>)
    ensures |ToSet(ids)| <= |ids|
    ensures |ToSet(ids)| == |ids| <==> Distinct(ids)
  {
    if ids != [] {
      var rest := ids[1..];
      CountDistinct(rest);
      assert ToSet(ids) == ToSet(rest) + {ids[0]};
      if ids[0] in rest {
        var k :| 0 <= k < |rest| && rest[k] == ids[0];
        assert ids[0] == ids[k + 1];
      } else {
        assert forall k :: 0 <= k < |rest| ==> rest[k] == ids[k + 1];
        assert Distinct(ids) <==> Distinct(rest) by {
          forall i, j | Distinct(rest) && 0 <= i < j < |ids|
            ensures ids[i] != ids[j]
          {
            if i > 0 {
              assert rest[i - 1] != rest[j - 1];
            }
          }
        }
      }
    }
  }

  // ---- Exactness ----

  // Row counts are member counts, and the filtered count is the size of the intersection.
  lemma {:induction false} RowCounts(db: Db, ids: seq<string>, channel: string)
    ensures |RowsOf(db, channel)| == |MembersOf(db, channel)|
    ensures |set p | p in RowsOf(db, channel) && p.1 in ids| == |MembersOf(db, channel) * ToSet(ids)|
    ensures forall m :: m in MembersOf(db, channel) <==> (channel, m) in db.members
  {
    CountMembers(RowsOf(db, channel), channel);
    var hits := set p | p in RowsOf(db, channel) && p.1 in ids;
    CountMembers(hits, channel);
    assert (set p | p in hits :: p.1) == MembersOf(db, channel) * ToSet(ids);
    forall m | (channel, m) in db.members
      ensures m in MembersOf(db, channel)
    {
      assert (channel, m) in RowsOf(db, channel);
    }
  }

  lemma {:induction false} SelfJoinRow(db: Db, ids: seq<string>, channel: string)
    requires |ids| == 2 && Distinct(ids)
    ensures ((channel, ids[0]) in db.members && (channel, ids[1]) in db.members && |RowsOf(db, channel)| == 2)
            <==> MembersOf(db, channel) == ToSet(ids)
  {
    RowCounts(db, ids, channel);
    CountDistinct(ids);
    if (channel, ids[0]) in db.members && (channel, ids[1]) in db.members && |RowsOf(db, channel)| == 2 {
      SubsetOfSameSize(ToSet(ids), MembersOf(db, channel));
    }
    assert ids[0] in ToSet(ids) && ids[1] in ToSet(ids);
  }

  lemma {:induction false} GroupRow(db: Db, ids: seq<string>, channel: string)
    requires Distinct(ids)
    ensures (|set p | p in RowsOf(db, channel) && p.1 in ids| == |ids| && |RowsOf(db, channel)| == |ids|)
            <==> MembersOf(db, channel) == ToSet(ids)
  {
    RowCounts(db, ids, channel);
    CountDistinct(ids);
    var both := MembersOf(db, channel) * ToSet(ids);
    if |both| == |ids| && |MembersOf(db, channel)| == |ids| {
      SubsetOfSameSize(both, MembersOf(db, channel));
      SubsetOfSameSize(both, ToSet(ids));
    }
    if MembersOf(db, channel) == ToSet(ids) {
      assert both == ToSet(ids);
    }
  }

  // For distinct members both queries select exactly the channels with exactly those members.
  lemma {:induction false} QueriesExact(db: Db, workspace: string, ids: seq<string>)
    requires |ids| >= 2 && Distinct(ids)
    ensures Selected(db, workspace, ids) == ExactMatches(db, workspace, ids)
  {
    forall ch | ch in db.channels.Keys
      ensures ch in Selected(db, workspace, ids) <==> ch in ExactMatches(db, workspace, ids)
    {
      if |ids| == 2 {
        SelfJoinRow(db, ids, ch);
      } else {
        GroupRow(db, ids, ch);
      }
    }
  }

  // ---- Repeated members ----

  // A two-element list that names one member twice finds any two-person channel of that member.
  lemma {:induction false} SelfLookup(db: Db, workspace: string, a: string)
    ensures Selected(db, workspace, [a, a])
            == set ch | ch in db.channels.Keys && InScope(db, workspace, [a, a], ch)
                        && a in MembersOf(db, ch) && |MembersOf(db, ch)| == 2
  {
    forall ch | ch in db.channels.Keys
      ensures ch in Selected(db, workspace, [a, a]) <==>
              InScope(db, workspace, [a, a], ch) && a in MembersOf(db, ch) && |MembersOf(db, ch)| == 2
    {
      RowCounts(db, [a, a], ch);
    }
  }

  // A longer list with a repetition finds nothing, even when the exact channel exists.
  lemma {:induction false} RepeatedGroupFindsNothing(db: Db, workspace: string, ids: seq<string>)
    requires |ids| > 2 && !Distinct(ids)
    ensures Selected(db, workspace, ids) == {}
  {
    CountDistinct(ids);
    forall ch | ch in db.channels.Keys
      ensures ch !in Selected(db, workspace, ids)
    {
      RowCounts(db, ids, ch);
      SubsetNoLarger(MembersOf(db, ch) * ToSet(ids), ToSet(ids));
    }
  }

  ghost predicate AlwaysExact(ids: seq<string>)
    requires |ids| >= 2
  {
    forall db: Db, workspace: string :: Selected(db, workspace, ids) == ExactMatches(db, workspace, ids)
  }

  // The lookup is the exact-set lookup on every database if and only if no member is repeated.
  lemma {:induction false} ExactIffDistinct(ids: seq<string>)
    requires |ids| >= 2
    ensures AlwaysExact(ids) <==> Distinct(ids)
  {
    if Distinct(ids) {
      forall db: Db, workspace: string
        ensures Selected(db, workspace, ids) == ExactMatches(db, workspace, ids)
      {
        QueriesExact(db, workspace, ids);
      }
    } else if |ids| == 2 {
      var a := ids[0];
      assert ids == [a, a];
      var db := Db(map["c" := Channel("w", "dm")], {("c", a), ("c", a + "x")});
      assert RowsOf(db, "c") == {("c", a), ("c", a + "x")};
      assert (a + "x")[|a|] == 'x';
      assert "c" in SelfJoin(db, "w", ids);
      RowCounts(db, ids, "c");
      assert a + "x" in MembersOf(db, "c") && a + "x" !in ToSet(ids);
      assert "c" !in ExactMatches(db, "w", ids);
    } else {
      var db := Db(map["c" := Channel("w", "group_dm")], set id | id in ids :: ("c", id));
      RowCounts(db, ids, "c");
      assert MembersOf(db, "c") == ToSet(ids);
      assert "c" in ExactMatches(db, "w", ids);
      RepeatedGroupFindsNothing(db, "w", ids);
    }
  }
}
