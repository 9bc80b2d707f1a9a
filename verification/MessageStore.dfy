// The messages table with everything its triggers derive from it: reply counts, the external-content
// full-text index and the room version (internal/server/store/migrations.go, sqlite.go).
module MessageStore {
  import opened Collections
  import opened FtsQuery
  import Text

  type Tokenizer = string -> seq<string>

  datatype Row = Row(channel: string, sender: string, thread: Option<string>, content: string, replyCount: int)

  // One token of one message at one position of its content.
  datatype Posting = Posting(id: string, at: nat, token: string)

  // channels: channel -> workspace; versions: channels.room_version.
  datatype Db = Db(
    rows: map<string, Row>,
    index: multiset<Posting>,
    channels: map<string, string>,
    versions: map<string, nat>,
    members: set<string>)

  const EMPTY := Db(map[], multiset{}, map[], map[], {})

  // The three AFTER INSERT triggers on messages; SQLite does not fix their order.
  datatype InsertTrigger = ReplyCount | FtsInsert | RoomVersion

  datatype Stmt =
    | CreateChannel(channel: string, workspace: string)
    | CreateMember(member: string)
    | Insert(id: string, row: Row, order: seq<InsertTrigger>, refused: bool)
    | Edit(id: string, content: string, refused: bool)
      // Deleting messages directly, or through the cascade of deleted channels and members.
    | Delete(victims: seq<string>, channels: set<string>, members: set<string>, replyFirst: bool, refused: bool)

  // ---- Postings ----

  function Postings(id: string, tokens: seq<string>): multiset<Posting> {
    if tokens == [] then multiset{}
    else
      var last := |tokens| - 1;
      Postings(id, tokens[..last]) + multiset{Posting(id, last, tokens[last])}
  }

  predicate Holds(id: string, tokens: seq<string>, p: Posting) {
    p.id == id && p.at < |tokens| && tokens[p.at] == p.token
  }

  lemma {:induction false} PostingsCount(id: string, tokens: seq<string>, p: Posting)
    ensures Postings(id, tokens)[p] == if Holds(id, tokens, p) then 1 else 0
  {
    if tokens != [] {
      PostingsCount(id, tokens[..|tokens| - 1], p);
    }
  }

  lemma {:induction false} PostingsCounts(id: string, tokens: seq<string>)
    ensures forall p: Posting :: Postings(id, tokens)[p] == if Holds(id, tokens, p) then 1 else 0
  {
    forall p: Posting
      ensures Postings(id, tokens)[p] == if Holds(id, tokens, p) then 1 else 0
    {
      PostingsCount(id, tokens, p);
    }
  }

  // ---- Trigger bodies ----

  // messages_ai
  function Indexed(tok: Tokenizer, db: Db, id: string, content: string): Db {
    db.(index := db.index + Postings(id, tok(content)))
  }

  // messages_ad: the 'delete' command takes the given postings out of the index.
  function Unindexed(tok: Tokenizer, db: Db, id: string, content: string): Db {
    db.(index := db.index - Postings(id, tok(content)))
  }

  // UPDATE of one row; messages_au then takes the old content out and puts the new one in.
  function Updated(tok: Tokenizer, db: Db, id: string, row: Row): Db
    requires id in db.rows
  {
    Indexed(tok, Unindexed(tok, db.(rows := db.rows[id := row]), id, db.rows[id].content), id, row.content)
  }

  function BumpedRow(row: Row, delta: int): Row { row.(replyCount := row.replyCount + delta) }

  // UPDATE messages SET reply_count = reply_count + delta WHERE id = parent, which fires messages_au.
  function Bumped(tok: Tokenizer, db: Db, parent: Option<string>, delta: int): Db {
    if parent.None? || parent.value !in db.rows then db
    else Updated(tok, db, parent.value, BumpedRow(db.rows[parent.value], delta))
  }

  // The effect of that UPDATE on the table alone.
  function BumpedRows(rows: map<string, Row>, parent: Option<string>, delta: int): map<string, Row> {
    if parent.None? || parent.value !in rows then rows
    else rows[parent.value := BumpedRow(rows[parent.value], delta)]
  }

  lemma {:induction false} BumpedFrame(tok: Tokenizer, db: Db, parent: Option<string>, delta: int)
    ensures var after := Bumped(tok, db, parent, delta);
            && after.rows == BumpedRows(db.rows, parent, delta)
            && after.channels == db.channels && after.versions == db.versions && after.members == db.members
  {
    hide Postings;
  }

  function Fired(tok: Tokenizer, db: Db, id: string, row: Row, t: InsertTrigger): Db {
    match t
    case ReplyCount => Bumped(tok, db, row.thread, 1)
    case FtsInsert => Indexed(tok, db, id, row.content)
    case RoomVersion =>
      if row.channel in db.versions then db.(versions := db.versions[row.channel := db.versions[row.channel] + 1]) else db
  }

  function FiredAll(tok: Tokenizer, db: Db, id: string, row: Row, order: seq<InsertTrigger>): Db
    decreases |order|
  {
    if order == [] then db else FiredAll(tok, Fired(tok, db, id, row, order[0]), id, row, order[1..])
  }

  // The two AFTER DELETE triggers, in either order.
  function AfterDelete(tok: Tokenizer, db: Db, id: string, row: Row, replyFirst: bool): Db {
    if replyFirst then Unindexed(tok, Bumped(tok, db, row.thread, -1), id, row.content)
    else Bumped(tok, Unindexed(tok, db, id, row.content), row.thread, -1)
  }

  function RowDeleted(tok: Tokenizer, db: Db, id: string, replyFirst: bool): Db {
    if id !in db.rows then db
    else AfterDelete(tok, db.(rows := db.rows - {id}), id, db.rows[id], replyFirst)
  }

  function RowsDeleted(tok: Tokenizer, db: Db, victims: seq<string>, replyFirst: bool): Db
    decreases |victims|
  {
    if victims == [] then db
    else RowsDeleted(tok, RowDeleted(tok, db, victims[0], replyFirst), victims[1..], replyFirst)
  }

  // ---- Statements ----

  // thread_id REFERENCES messages(id) with no action: checked when the statement ends.
  predicate NoDangling(rows: map<string, Row>) {
    forall m :: m in rows && rows[m].thread.Some? ==> rows[m].thread.value in rows
  }

  predicate CanInsert(db: Db, id: string, row: Row) {
    && id !in db.rows
    && row.channel in db.channels && row.sender in db.members
    && (row.thread.Some? ==> row.thread.value in db.rows || row.thread.value == id)
  }

  // A statement that violates a constraint, or that the engine refuses for another reason, rolls back.
  function Step(tok: Tokenizer, db: Db, s: Stmt): Db {
    match s
    case CreateChannel(c, w) =>
      if c in db.channels then db
      else db.(channels := db.channels[c := w], versions := db.versions[c := 0])
    case CreateMember(m) => db.(members := db.members + {m})
    case Insert(id, row, order, refused) =>
      if refused || !CanInsert(db, id, row) then db
      else FiredAll(tok, db.(rows := db.rows[id := row]), id, row, order)
    case Edit(id, content, refused) =>
      if refused || id !in db.rows then db
      else Updated(tok, db, id, db.rows[id].(content := content))
    case Delete(victims, channels, members, replyFirst, refused) =>
      var after := RowsDeleted(tok, db, victims, replyFirst);
      if refused || !NoDangling(after.rows) then db
      else after.(channels := after.channels - channels, versions := after.versions - channels,
                  members := after.members - members)
  }

  // What the callers and the engine guarantee about a statement: a new message starts with no replies,
  // each trigger fires once, and a cascade reaches every message of a deleted channel or member.
  predicate WellFormed(db: Db, s: Stmt) {
    match s
    case CreateChannel(_, _) => true
    case CreateMember(_) => true
    case Insert(_, row, order, _) =>
      row.replyCount == 0 && multiset(order) == multiset{ReplyCount, FtsInsert, RoomVersion}
    case Edit(_, _, _) => true
    case Delete(victims, channels, members, _, _) =>
      forall m :: m in db.rows && (db.rows[m].channel in channels || db.rows[m].sender in members) ==> m in victims
  }

  function Run(tok: Tokenizer, db: Db, stmts: seq<Stmt>): Db
    decreases |stmts|
  {
    if stmts == [] then db else Run(tok, Step(tok, db, stmts[0]), stmts[1..])
  }

  predicate WellFormedRun(tok: Tokenizer, db: Db, stmts: seq<Stmt>)
    decreases |stmts|
  {
    stmts == [] || (WellFormed(db, stmts[0]) && WellFormedRun(tok, Step(tok, db, stmts[0]), stmts[1..]))
  }

  // ---- What each statement leaves in the tables ----

  // An insert goes through if and only if nothing refuses it, the id is new, and its channel, its sender and
  // its thread exist; then the row is there, its parent (itself included) has one reply more, its channel one
  // version more, and every other row is as it was. Otherwise nothing changes.
  lemma {:induction false} InsertExactly(tok: Tokenizer, db: Db, s: Stmt)
    requires s.Insert? && WellFormed(db, s)
    ensures var taken := && !s.refused && s.id !in db.rows && s.row.channel in db.channels && s.row.sender in db.members
                         && (s.row.thread.None? || s.row.thread.value in db.rows || s.row.thread.value == s.id);
            var after := Step(tok, db, s);
            && (!taken ==> after == db)
            && (taken ==>
                  && after.rows.Keys == db.rows.Keys + {s.id}
                  && after.rows[s.id] == s.row.(replyCount := if s.row.thread == Some(s.id) then 1 else 0)
                  && (forall m :: m in db.rows ==>
                        after.rows[m] == db.rows[m].(replyCount := db.rows[m].replyCount + if s.row.thread == Some(m) then 1 else 0))
                  && after.channels == db.channels && after.members == db.members
                  && (s.row.channel in db.versions ==>
                        after.versions == db.versions[s.row.channel := db.versions[s.row.channel] + 1]))
  {
    hide FiredAll, Postings, Bumped, Indexed, CountsFirst, BumpedRows;
    if !s.refused && CanInsert(db, s.id, s.row) {
      AfterTriggers(tok, db.(rows := db.rows[s.id := s.row]), s.id, s.row, s.order);
      InsertedRows(db.rows, s.id, s.row);
    }
  }

  lemma {:induction false} InsertedRows(rows: map<string, Row>, id: string, row: Row)
    requires id !in rows && row.replyCount == 0
    ensures var after := BumpedRows(rows[id := row], row.thread, 1);
            && after.Keys == rows.Keys + {id}
            && after[id] == row.(replyCount := if row.thread == Some(id) then 1 else 0)
            && forall m :: m in rows ==>
                 after[m] == rows[m].(replyCount := rows[m].replyCount + if row.thread == Some(m) then 1 else 0)
  {
  }

  // An edit that is taken changes the content of its message and nothing else in the tables.
  lemma {:induction false} EditExactly(tok: Tokenizer, db: Db, s: Stmt)
    requires s.Edit?
    ensures var after := Step(tok, db, s);
            && after.rows == (if !s.refused && s.id in db.rows then db.rows[s.id := db.rows[s.id].(content := s.content)] else db.rows)
            && after.versions == db.versions && after.channels == db.channels && after.members == db.members
            && (s.refused || s.id !in db.rows ==> after == db)
  {
  }

  // A delete goes through if and only if nothing refuses it and no message that stays has its thread among
  // those that go; then exactly the victims are gone, the others change in their reply counts only, and the
  // channels and members are gone. Otherwise nothing changes.
  lemma {:induction false} DeleteExactly(tok: Tokenizer, db: Db, s: Stmt)
    requires s.Delete?
    ensures var through := && !s.refused
                           && forall m :: m in db.rows && m !in s.victims && db.rows[m].thread.Some? ==>
                                db.rows[m].thread.value in db.rows && db.rows[m].thread.value !in s.victims;
            var after := Step(tok, db, s);
            && (!through ==> after == db)
            && (through ==>
                  && (forall m :: m in after.rows <==> m in db.rows && m !in s.victims)
                  && (forall m :: m in after.rows ==> after.rows[m] == db.rows[m].(replyCount := after.rows[m].replyCount))
                  && after.channels == db.channels - s.channels && after.versions == db.versions - s.channels
                  && after.members == db.members - s.members)
  {
    RowsDeletedFrame(tok, db, s.victims, s.replyFirst);
    var mid := RowsDeleted(tok, db, s.victims, s.replyFirst);
    hide RowsDeleted;
    assert forall m :: m in mid.rows ==> SameButCount(mid.rows[m], db.rows[m]);
    assert NoDangling(mid.rows) <==>
           forall m :: m in db.rows && m !in s.victims && db.rows[m].thread.Some? ==>
             db.rows[m].thread.value in db.rows && db.rows[m].thread.value !in s.victims;
  }

  // New channels and members.
  lemma {:induction false} CreateExactly(tok: Tokenizer, db: Db, c: string, w: string, m: string)
    ensures c !in db.channels ==>
              Step(tok, db, CreateChannel(c, w)) == db.(channels := db.channels[c := w], versions := db.versions[c := 0])
    ensures Step(tok, db, CreateMember(m)).members == db.members + {m}
  {
  }

  // ---- The index agrees with the table ----

  predicate Expected(tok: Tokenizer, rows: map<string, Row>, p: Posting) {
    p.id in rows && Holds(p.id, tok(rows[p.id].content), p)
  }

  ghost predicate Agrees(tok: Tokenizer, index: multiset<Posting>, rows: map<string, Row>) {
    forall p: Posting :: index[p] == if Expected(tok, rows, p) then 1 else 0
  }

  // Rewriting a row that is indexed keeps the agreement.
  lemma {:induction false} UpdatedAgrees(tok: Tokenizer, db: Db, id: string, row: Row, indexed: map<string, Row>)
    requires id in db.rows && id in indexed && indexed[id].content == db.rows[id].content
    requires Agrees(tok, db.index, indexed)
    ensures Agrees(tok, Updated(tok, db, id, row).index, indexed[id := row])
  {
    PostingsCounts(id, tok(db.rows[id].content));
    PostingsCounts(id, tok(row.content));
  }

  // So a parent whose reply count is bumped stays indexed as it was.
  lemma {:induction false} BumpedAgrees(tok: Tokenizer, db: Db, parent: Option<string>, delta: int, hidden: set<string>)
    requires parent.Some? ==> parent.value !in hidden
    requires Agrees(tok, db.index, db.rows - hidden)
    ensures Agrees(tok, Bumped(tok, db, parent, delta).index, BumpedRows(db.rows, parent, delta) - hidden)
  {
    hide Agrees, Updated;
    if parent.Some? && parent.value in db.rows {
      var row := BumpedRow(db.rows[parent.value], delta);
      UpdatedAgrees(tok, db, parent.value, row, db.rows - hidden);
      assert BumpedRows(db.rows, parent, delta) - hidden == (db.rows - hidden)[parent.value := row];
    }
  }

  lemma {:induction false} IndexedAgrees(tok: Tokenizer, index: multiset<Posting>, rows: map<string, Row>, id: string)
    requires id in rows && Agrees(tok, index, rows - {id})
    ensures Agrees(tok, index + Postings(id, tok(rows[id].content)), rows)
  {
    hide Postings;
    PostingsCounts(id, tok(rows[id].content));
  }

  lemma {:induction false} UnindexedAgrees(tok: Tokenizer, db: Db, id: string, row: Row, rest: map<string, Row>)
    requires id !in rest && Agrees(tok, db.index, rest[id := row])
    ensures Agrees(tok, Unindexed(tok, db, id, row.content).index, rest)
  {
    PostingsCounts(id, tok(row.content));
  }

  // Does the reply-count trigger fire before the indexing one?
  predicate CountsFirst(order: seq<InsertTrigger>) {
    order != [] && (order[0] == ReplyCount || (order[0] != FtsInsert && CountsFirst(order[1..])))
  }

  // The six firing orders.
  lemma {:induction false} Orders(order: seq<InsertTrigger>)
    requires multiset(order) == multiset{ReplyCount, FtsInsert, RoomVersion}
    ensures |order| == 3
    ensures order in {
      [ReplyCount, FtsInsert, RoomVersion], [ReplyCount, RoomVersion, FtsInsert], [RoomVersion, ReplyCount, FtsInsert],
      [FtsInsert, ReplyCount, RoomVersion], [FtsInsert, RoomVersion, ReplyCount], [RoomVersion, FtsInsert, ReplyCount]}
  {
    assert |multiset(order)| == 3;
    assert order == [order[0], order[1], order[2]];
    assert multiset(order) == multiset{order[0], order[1], order[2]};
    assert multiset(order)[ReplyCount] == 1 && multiset(order)[FtsInsert] == 1 && multiset(order)[RoomVersion] == 1;
  }

  lemma {:induction false} Fired3(tok: Tokenizer, db: Db, id: string, row: Row, a: InsertTrigger, b: InsertTrigger, c: InsertTrigger)
    ensures FiredAll(tok, db, id, row, [a, b, c])
            == Fired(tok, Fired(tok, Fired(tok, db, id, row, a), id, row, b), id, row, c)
    ensures CountsFirst([a, b, c])
            <==> a == ReplyCount || (a != FtsInsert && (b == ReplyCount || (b != FtsInsert && c == ReplyCount)))
  {
    hide Fired;
    assert [a, b, c][1..] == [b, c] && [b, c][1..] == [c] && [c][1..] == [];
    var db1 := Fired(tok, db, id, row, a);
    var db2 := Fired(tok, db1, id, row, b);
    assert FiredAll(tok, db2, id, row, [c]) == FiredAll(tok, Fired(tok, db2, id, row, c), id, row, []);
    assert FiredAll(tok, db1, id, row, [b, c]) == FiredAll(tok, db2, id, row, [c]);
    assert CountsFirst([c]) <==> c == ReplyCount;
    assert CountsFirst([b, c]) <==> b == ReplyCount || (b != FtsInsert && CountsFirst([c]));
  }

  // The room-version trigger touches nothing the other two look at.
  lemma {:induction false} VersionCommutes(tok: Tokenizer, db: Db, id: string, row: Row, t: InsertTrigger)
    requires t != RoomVersion
    ensures Fired(tok, Fired(tok, db, id, row, RoomVersion), id, row, t)
            == Fired(tok, Fired(tok, db, id, row, t), id, row, RoomVersion)
  {
    hide Postings;
    BumpedFrame(tok, db, row.thread, 1);
  }

  // So only two orders differ.
  lemma {:induction false} FiredOrders(tok: Tokenizer, db: Db, id: string, row: Row, order: seq<InsertTrigger>)
    requires multiset(order) == multiset{ReplyCount, FtsInsert, RoomVersion}
    ensures FiredAll(tok, db, id, row, order) ==
            var last := if CountsFirst(order) then FtsInsert else ReplyCount;
            var first := if CountsFirst(order) then ReplyCount else FtsInsert;
            Fired(tok, Fired(tok, Fired(tok, db, id, row, first), id, row, last), id, row, RoomVersion)
  {
    hide Fired, FiredAll, CountsFirst;
    Orders(order);
    assert order == [order[0], order[1], order[2]];
    Fired3(tok, db, id, row, order[0], order[1], order[2]);
    VersionCommutes(tok, db, id, row, ReplyCount);
    VersionCommutes(tok, db, id, row, FtsInsert);
    VersionCommutes(tok, Fired(tok, db, id, row, ReplyCount), id, row, FtsInsert);
    VersionCommutes(tok, Fired(tok, db, id, row, FtsInsert), id, row, ReplyCount);
  }

  // The whole state after an insert's triggers, in terms of the two orders.
  lemma {:induction false} AfterTriggers(tok: Tokenizer, db: Db, id: string, row: Row, order: seq<InsertTrigger>)
    requires multiset(order) == multiset{ReplyCount, FtsInsert, RoomVersion}
    ensures var after := FiredAll(tok, db, id, row, order);
            && after.rows == BumpedRows(db.rows, row.thread, 1)
            && after.index == (if CountsFirst(order) then Bumped(tok, db, row.thread, 1).index + Postings(id, tok(row.content))
                               else Bumped(tok, Indexed(tok, db, id, row.content), row.thread, 1).index)
            && after.channels == db.channels && after.members == db.members
            && after.versions == if row.channel in db.versions then db.versions[row.channel := db.versions[row.channel] + 1]
                                 else db.versions
  {
    hide FiredAll, CountsFirst, Postings, Bumped;
    FiredOrders(tok, db, id, row, order);
    BumpedFrame(tok, db, row.thread, 1);
    BumpedFrame(tok, Indexed(tok, db, id, row.content), row.thread, 1);
  }

  // ---- Insert ----

  lemma {:induction false} InsertAgrees(tok: Tokenizer, db: Db, id: string, row: Row, order: seq<InsertTrigger>)
    requires id !in db.rows && row.thread != Some(id)
    requires multiset(order) == multiset{ReplyCount, FtsInsert, RoomVersion}
    requires Agrees(tok, db.index, db.rows)
    ensures var after := FiredAll(tok, db.(rows := db.rows[id := row]), id, row, order);
            Agrees(tok, after.index, after.rows)
  {
    hide Agrees, Bumped, FiredAll, Postings, CountsFirst;
    var db1 := db.(rows := db.rows[id := row]);
    assert db1.rows - {id} == db.rows;
    AfterTriggers(tok, db1, id, row, order);
    var rows := BumpedRows(db1.rows, row.thread, 1);
    // Counting first: the new row is not indexed yet, its parent is.
    BumpedAgrees(tok, db1, row.thread, 1, {id});
    IndexedAgrees(tok, Bumped(tok, db1, row.thread, 1).index, rows, id);
    // Indexing first.
    IndexedAgrees(tok, db1.index, db1.rows, id);
    assert db1.rows - {} == db1.rows && rows - {} == rows;
    BumpedAgrees(tok, Indexed(tok, db1, id, row.content), row.thread, 1, {});
  }

  // A message that names itself as its thread is indexed twice when its reply count is bumped first.
  lemma {:induction false} SelfThreadAgrees(tok: Tokenizer, db: Db, id: string, row: Row, order: seq<InsertTrigger>)
    requires id !in db.rows && row.thread == Some(id)
    requires multiset(order) == multiset{ReplyCount, FtsInsert, RoomVersion}
    requires Agrees(tok, db.index, db.rows)
    ensures var after := FiredAll(tok, db.(rows := db.rows[id := row]), id, row, order);
            Agrees(tok, after.index, after.rows) <==> tok(row.content) == [] || !CountsFirst(order)
  {
    hide FiredAll, Postings, CountsFirst, Agrees;
    var db1 := db.(rows := db.rows[id := row]);
    AfterTriggers(tok, db1, id, row, order);
    var own := Postings(id, tok(row.content));
    var rows := BumpedRows(db1.rows, row.thread, 1);
    NotYetIndexed(tok, db.index, db.rows, id, row.content);
    SelfIndexed(tok, db.index, db.rows, rows, id, row.content);
    assert Bumped(tok, db1, row.thread, 1).index == db.index - own + own == db.index + own;
    assert Bumped(tok, Indexed(tok, db1, id, row.content), row.thread, 1).index == db.index + own - own + own
           == db.index + own;
  }

  // Nothing is posted under an id that is not in the table.
  lemma {:induction false} NotYetIndexed(tok: Tokenizer, index: multiset<Posting>, rows: map<string, Row>, id: string, content: string)
    requires id !in rows && Agrees(tok, index, rows)
    ensures index - Postings(id, tok(content)) == index
  {
    hide Postings;
    PostingsCounts(id, tok(content));
  }

  // Posting a new row once brings the index in step; posting it twice does only if it has no tokens.
  lemma {:induction false} SelfIndexed(tok: Tokenizer, index: multiset<Posting>, rows: map<string, Row>, after: map<string, Row>, id: string,
                    content: string)
    requires id !in rows && Agrees(tok, index, rows)
    requires after.Keys == rows.Keys + {id} && after[id].content == content
    requires forall m :: m in rows ==> after[m] == rows[m]
    ensures Agrees(tok, index + Postings(id, tok(content)), after)
    ensures Agrees(tok, index + Postings(id, tok(content)) + Postings(id, tok(content)), after) <==> tok(content) == []
  {
    hide Postings;
    PostingsCounts(id, tok(content));
    if tok(content) != [] {
      var p := Posting(id, 0, tok(content)[0]);
      assert (index + Postings(id, tok(content)) + Postings(id, tok(content)))[p] == 2;
    }
  }

  // An insert keeps the index in step if and only if the message is not its own thread, or has nothing
  // to index, or is indexed before its count is bumped.
  lemma {:induction false} InsertAgreesExactly(tok: Tokenizer, db: Db, id: string, row: Row, order: seq<InsertTrigger>)
    requires id !in db.rows && Agrees(tok, db.index, db.rows)
    requires multiset(order) == multiset{ReplyCount, FtsInsert, RoomVersion}
    ensures var after := FiredAll(tok, db.(rows := db.rows[id := row]), id, row, order);
            Agrees(tok, after.index, after.rows)
            <==> (row.thread != Some(id) || tok(row.content) == [] || !CountsFirst(order))
  {
    hide FiredAll, Agrees;
    if row.thread != Some(id) {
      InsertAgrees(tok, db, id, row, order);
    } else {
      SelfThreadAgrees(tok, db, id, row, order);
    }
  }

  // ---- Delete ----

  // What stays of a row apart from its reply count.
  predicate SameButCount(a: Row, b: Row) { a.(replyCount := 0) == b.(replyCount := 0) }

  lemma {:induction false} RowDeletedFrame(tok: Tokenizer, db: Db, id: string, replyFirst: bool)
    ensures var after := RowDeleted(tok, db, id, replyFirst);
            && after.rows == (if id in db.rows then BumpedRows(db.rows - {id}, db.rows[id].thread, -1) else db.rows)
            && after.rows.Keys == db.rows.Keys - {id}
            && (forall m :: m in after.rows ==> SameButCount(after.rows[m], db.rows[m]))
            && after.versions == db.versions && after.channels == db.channels && after.members == db.members
  {
    hide Postings, Bumped;
    if id in db.rows {
      var row := db.rows[id];
      var db1 := db.(rows := db.rows - {id});
      BumpedFrame(tok, db1, row.thread, -1);
      BumpedFrame(tok, Unindexed(tok, db1, id, row.content), row.thread, -1);
    }
  }

  lemma {:induction false} RowDeletedAgrees(tok: Tokenizer, db: Db, id: string, replyFirst: bool)
    requires Agrees(tok, db.index, db.rows)
    ensures var after := RowDeleted(tok, db, id, replyFirst); Agrees(tok, after.index, after.rows)
  {
    hide Agrees, Postings, Bumped;
    if id in db.rows {
      var row := db.rows[id];
      var db1 := db.(rows := db.rows - {id});
      assert db1.rows[id := row] == db.rows;
      RowDeletedFrame(tok, db, id, replyFirst);
      var rows := BumpedRows(db1.rows, row.thread, -1);
      if replyFirst {
        // The index still holds the deleted row while its parent is rewritten.
        BumpedBesides(tok, db1, id, row);
        UnindexedAgrees(tok, Bumped(tok, db1, row.thread, -1), id, row, rows);
      } else {
        UnindexedAgrees(tok, db1, id, row, db1.rows);
        assert db1.rows - {} == db1.rows && rows - {} == rows;
        BumpedAgrees(tok, Unindexed(tok, db1, id, row.content), row.thread, -1, {});
      }
    }
  }

  lemma {:induction false} BumpedBesides(tok: Tokenizer, db: Db, id: string, row: Row)
    requires id !in db.rows && Agrees(tok, db.index, db.rows[id := row])
    ensures Agrees(tok, Bumped(tok, db, row.thread, -1).index, BumpedRows(db.rows, row.thread, -1)[id := row])
  {
    hide Agrees, Postings, Updated;
    if row.thread.Some? && row.thread.value in db.rows {
      var parent := BumpedRow(db.rows[row.thread.value], -1);
      UpdatedAgrees(tok, db, row.thread.value, parent, db.rows[id := row]);
      assert db.rows[id := row][row.thread.value := parent] == BumpedRows(db.rows, row.thread, -1)[id := row];
    }
  }

  lemma {:induction false} RowsDeletedFrame(tok: Tokenizer, db: Db, victims: seq<string>, replyFirst: bool)
    ensures var after := RowsDeleted(tok, db, victims, replyFirst);
            && (forall m :: m in after.rows <==> m in db.rows && m !in victims)
            && (forall m :: m in after.rows ==> SameButCount(after.rows[m], db.rows[m]))
            && after.versions == db.versions && after.channels == db.channels && after.members == db.members
    decreases |victims|
  {
    hide RowDeleted;
    if victims != [] {
      RowDeletedFrame(tok, db, victims[0], replyFirst);
      RowsDeletedFrame(tok, RowDeleted(tok, db, victims[0], replyFirst), victims[1..], replyFirst);
      assert victims == [victims[0]] + victims[1..];
    }
  }

  lemma {:induction false} RowsDeletedAgrees(tok: Tokenizer, db: Db, victims: seq<string>, replyFirst: bool)
    requires Agrees(tok, db.index, db.rows)
    ensures var after := RowsDeleted(tok, db, victims, replyFirst); Agrees(tok, after.index, after.rows)
    decreases |victims|
  {
    hide Agrees, RowDeleted;
    if victims != [] {
      RowDeletedAgrees(tok, db, victims[0], replyFirst);
      RowsDeletedAgrees(tok, RowDeleted(tok, db, victims[0], replyFirst), victims[1..], replyFirst);
    }
  }

  // ---- Reply counts ----

  function Replies(rows: map<string, Row>, id: string): set<string> {
    set m | m in rows && rows[m].thread == Some(id)
  }

  ghost predicate CountsExact(rows: map<string, Row>) {
    forall id :: id in rows ==> rows[id].replyCount == |Replies(rows, id)|
  }

  // Reply sets depend only on who is there and which thread each one names.
  lemma {:induction false} RepliesSame(a: map<string, Row>, b: map<string, Row>, id: string)
    requires a.Keys == b.Keys && forall m :: m in a ==> a[m].thread == b[m].thread
    ensures Replies(a, id) == Replies(b, id)
  {
  }

  // Adding a row and bumping its parent, possibly itself, keeps all counts exact.
  lemma {:induction false} CountsAfterInsert(rows: map<string, Row>, id: string, row: Row)
    requires id !in rows && CountsExact(rows) && NoDangling(rows) && row.replyCount == 0
    ensures CountsExact(BumpedRows(rows[id := row], row.thread, 1))
  {
    var rows1 := rows[id := row];
    var after := BumpedRows(rows1, row.thread, 1);
    forall k | k in after
      ensures after[k].replyCount == |Replies(after, k)|
    {
      RepliesSame(after, rows1, k);
      RepliesGain(rows, id, row, k);
      if k == id {
        // Nobody could refer to a message that did not exist.
        assert Replies(rows, id) == {};
      }
    }
  }

  lemma {:induction false} RepliesGain(rows: map<string, Row>, id: string, row: Row, k: string)
    requires id !in rows
    ensures Replies(rows[id := row], k) == Replies(rows, k) + (if row.thread == Some(k) then {id} else {})
    ensures id !in Replies(rows, k)
  {
  }

  lemma {:induction false} CountsAfterDelete(tok: Tokenizer, db: Db, id: string, replyFirst: bool)
    requires CountsExact(db.rows)
    ensures CountsExact(RowDeleted(tok, db, id, replyFirst).rows)
  {
    RowDeletedFrame(tok, db, id, replyFirst);
    hide RowDeleted;
    if id in db.rows {
      var row := db.rows[id];
      var rows1 := db.rows - {id};
      assert rows1[id := row] == db.rows;
      var after := BumpedRows(rows1, row.thread, -1);
      forall k | k in after
        ensures after[k].replyCount == |Replies(after, k)|
      {
        RepliesSame(after, rows1, k);
        RepliesGain(rows1, id, row, k);
      }
    }
  }

  lemma {:induction false} CountsAfterDeletes(tok: Tokenizer, db: Db, order: seq<string>, replyFirst: bool)
    requires CountsExact(db.rows)
    ensures CountsExact(RowsDeleted(tok, db, order, replyFirst).rows)
    decreases |order|
  {
    hide CountsExact, RowDeleted;
    if order != [] {
      CountsAfterDelete(tok, db, order[0], replyFirst);
      CountsAfterDeletes(tok, RowDeleted(tok, db, order[0], replyFirst), order[1..], replyFirst);
    }
  }

  // ---- The invariant of every run ----

  ghost predicate Inv(tok: Tokenizer, db: Db) {
    && Agrees(tok, db.index, db.rows)
    && CountsExact(db.rows)
    && NoDangling(db.rows)
    && db.versions.Keys == db.channels.Keys
    && forall m :: m in db.rows ==> db.rows[m].channel in db.channels && db.rows[m].sender in db.members
  }

  // A message that goes in is not its own thread, or has nothing to index, or is indexed before its reply
  // count is bumped.
  predicate IndexedOnce(tok: Tokenizer, db: Db, s: Stmt) {
    s.Insert? && !s.refused && CanInsert(db, s.id, s.row) ==>
      s.row.thread != Some(s.id) || tok(s.row.content) == [] || !CountsFirst(s.order)
  }

  predicate AllIndexedOnce(tok: Tokenizer, db: Db, stmts: seq<Stmt>)
    decreases |stmts|
  {
    stmts == [] || (IndexedOnce(tok, db, stmts[0]) && AllIndexedOnce(tok, Step(tok, db, stmts[0]), stmts[1..]))
  }

  lemma {:induction false} InsertKeepsInv(tok: Tokenizer, db: Db, s: Stmt)
    requires s.Insert? && Inv(tok, db) && WellFormed(db, s) && IndexedOnce(tok, db, s)
    ensures Inv(tok, Step(tok, db, s))
  {
    hide Agrees, CountsExact, FiredAll, Postings, Bumped;
    if !s.refused && CanInsert(db, s.id, s.row) {
      InsertAgreesExactly(tok, db, s.id, s.row, s.order);
      AfterTriggers(tok, db.(rows := db.rows[s.id := s.row]), s.id, s.row, s.order);
      CountsAfterInsert(db.rows, s.id, s.row);
    }
  }

  lemma {:induction false} CountsAfterEdit(rows: map<string, Row>, id: string, content: string)
    requires id in rows && CountsExact(rows)
    ensures CountsExact(rows[id := rows[id].(content := content)])
  {
    var after := rows[id := rows[id].(content := content)];
    forall k | k in after
      ensures after[k].replyCount == |Replies(after, k)|
    {
      RepliesSame(after, rows, k);
    }
  }

  lemma {:induction false} EditKeepsInv(tok: Tokenizer, db: Db, s: Stmt)
    requires s.Edit? && Inv(tok, db)
    ensures Inv(tok, Step(tok, db, s))
  {
    hide Agrees, Postings, CountsExact;
    if !s.refused && s.id in db.rows {
      UpdatedAgrees(tok, db, s.id, db.rows[s.id].(content := s.content), db.rows);
      CountsAfterEdit(db.rows, s.id, s.content);
    }
  }

  lemma {:induction false} DeleteKeepsInv(tok: Tokenizer, db: Db, s: Stmt)
    requires s.Delete? && Inv(tok, db) && WellFormed(db, s)
    ensures Inv(tok, Step(tok, db, s))
  {
    hide Agrees, CountsExact, RowsDeleted;
    RowsDeletedAgrees(tok, db, s.victims, s.replyFirst);
    RowsDeletedFrame(tok, db, s.victims, s.replyFirst);
    CountsAfterDeletes(tok, db, s.victims, s.replyFirst);
    var mid := RowsDeleted(tok, db, s.victims, s.replyFirst);
    forall m | m in mid.rows
      ensures mid.rows[m].channel == db.rows[m].channel && mid.rows[m].sender == db.rows[m].sender
    {
      assert SameButCount(mid.rows[m], db.rows[m]);
    }
  }

  lemma {:induction false} StepKeepsInv(tok: Tokenizer, db: Db, s: Stmt)
    requires Inv(tok, db) && WellFormed(db, s) && IndexedOnce(tok, db, s)
    ensures Inv(tok, Step(tok, db, s))
  {
    hide Agrees, CountsExact, FiredAll, RowsDeleted, Updated;
    match s
    case CreateChannel(_, _) =>
    case CreateMember(_) =>
    case Insert(_, _, _, _) => InsertKeepsInv(tok, db, s);
    case Edit(_, _, _) => EditKeepsInv(tok, db, s);
    case Delete(_, _, _, _, _) => DeleteKeepsInv(tok, db, s);
  }

  // After any sequence of statements the index holds exactly the tokens of the live messages, every
  // reply count is the number of live replies, and no thread dangles.
  lemma {:induction false} RunKeepsInv(tok: Tokenizer, db: Db, stmts: seq<Stmt>)
    requires Inv(tok, db) && WellFormedRun(tok, db, stmts) && AllIndexedOnce(tok, db, stmts)
    ensures Inv(tok, Run(tok, db, stmts))
    decreases |stmts|
  {
    hide Inv, Step, WellFormed, IndexedOnce;
    if stmts != [] {
      StepKeepsInv(tok, db, stmts[0]);
      RunKeepsInv(tok, Step(tok, db, stmts[0]), stmts[1..]);
    }
  }

  lemma {:induction false} StoreConsistent(tok: Tokenizer, stmts: seq<Stmt>)
    requires WellFormedRun(tok, EMPTY, stmts) && AllIndexedOnce(tok, EMPTY, stmts)
    ensures var db := Run(tok, EMPTY, stmts);
            Agrees(tok, db.index, db.rows) && CountsExact(db.rows) && NoDangling(db.rows)
  {
    RunKeepsInv(tok, EMPTY, stmts);
  }

  // The index agrees with the table after every statement of the run.
  ghost predicate AgreesThroughout(tok: Tokenizer, db: Db, stmts: seq<Stmt>)
    decreases |stmts|
  {
    Agrees(tok, db.index, db.rows) && (stmts == [] || AgreesThroughout(tok, Step(tok, db, stmts[0]), stmts[1..]))
  }

  // The index agrees with the table all along a run if and only if every message that goes in is indexed once.
  lemma {:induction false} AgreesExactly(tok: Tokenizer, db: Db, stmts: seq<Stmt>)
    requires Inv(tok, db) && WellFormedRun(tok, db, stmts)
    ensures AgreesThroughout(tok, db, stmts) <==> AllIndexedOnce(tok, db, stmts)
    decreases |stmts|
  {
    hide Step, WellFormed, IndexedOnce, Agrees, CountsExact, NoDangling;
    if stmts != [] {
      var s := stmts[0];
      if IndexedOnce(tok, db, s) {
        StepKeepsInv(tok, db, s);
        AgreesExactly(tok, Step(tok, db, s), stmts[1..]);
      } else {
        IndexedTwice(tok, db, s);
      }
    }
  }

  lemma {:induction false} IndexedTwice(tok: Tokenizer, db: Db, s: Stmt)
    requires Inv(tok, db) && WellFormed(db, s) && !IndexedOnce(tok, db, s)
    ensures !Agrees(tok, Step(tok, db, s).index, Step(tok, db, s).rows)
  {
    hide Agrees, FiredAll;
    InsertAgreesExactly(tok, db, s.id, s.row, s.order);
  }

  // Ids are generated by the server, so a caller cannot name the id of the message being inserted; then every
  // message is indexed once.
  lemma {:induction false} FreshIdsIndexOnce(tok: Tokenizer, db: Db, stmts: seq<Stmt>)
    requires forall i :: 0 <= i < |stmts| && stmts[i].Insert? ==> stmts[i].row.thread != Some(stmts[i].id)
    ensures AllIndexedOnce(tok, db, stmts)
    decreases |stmts|
  {
    hide Step;
    if stmts != [] {
      FreshIdsIndexOnce(tok, Step(tok, db, stmts[0]), stmts[1..]);
    }
  }

  // So with server-generated ids the store is consistent after every run.
  lemma {:induction false} FreshIdsConsistent(tok: Tokenizer, stmts: seq<Stmt>)
    requires WellFormedRun(tok, EMPTY, stmts)
    requires forall i :: 0 <= i < |stmts| && stmts[i].Insert? ==> stmts[i].row.thread != Some(stmts[i].id)
    ensures var db := Run(tok, EMPTY, stmts);
            Agrees(tok, db.index, db.rows) && CountsExact(db.rows) && NoDangling(db.rows)
  {
    FreshIdsIndexOnce(tok, EMPTY, stmts);
    StoreConsistent(tok, stmts);
  }

  // Reply counts do not depend on the index: they are exact even with messages that are their own thread.
  lemma {:induction false} CountsAlwaysExact(tok: Tokenizer, db: Db, stmts: seq<Stmt>)
    requires CountsExact(db.rows) && NoDangling(db.rows) && WellFormedRun(tok, db, stmts)
    ensures var after := Run(tok, db, stmts); CountsExact(after.rows) && NoDangling(after.rows)
    decreases |stmts|
  {
    hide Step, WellFormed, CountsExact;
    if stmts != [] {
      CountsStep(tok, db, stmts[0]);
      CountsAlwaysExact(tok, Step(tok, db, stmts[0]), stmts[1..]);
    }
  }

  lemma {:induction false} CountsStep(tok: Tokenizer, db: Db, s: Stmt)
    requires CountsExact(db.rows) && NoDangling(db.rows) && WellFormed(db, s)
    ensures var after := Step(tok, db, s); CountsExact(after.rows) && NoDangling(after.rows)
  {
    hide FiredAll, RowsDeleted, Postings, CountsExact, Updated, NoDangling;
    if s.Insert? && !s.refused && CanInsert(db, s.id, s.row) {
      AfterTriggers(tok, db.(rows := db.rows[s.id := s.row]), s.id, s.row, s.order);
      CountsAfterInsert(db.rows, s.id, s.row);
      NoDanglingInsert(db, s.id, s.row);
    } else if s.Edit? && !s.refused && s.id in db.rows {
      CountsAfterEdit(db.rows, s.id, s.content);
      EditRows(tok, db, s.id, s.content);
    } else if s.Delete? {
      CountsAfterDeletes(tok, db, s.victims, s.replyFirst);
    }
  }

  lemma {:induction false} NoDanglingInsert(db: Db, id: string, row: Row)
    requires NoDangling(db.rows) && CanInsert(db, id, row)
    ensures NoDangling(BumpedRows(db.rows[id := row], row.thread, 1))
  {
  }

  lemma {:induction false} EditRows(tok: Tokenizer, db: Db, id: string, content: string)
    requires id in db.rows && NoDangling(db.rows)
    ensures var after := Updated(tok, db, id, db.rows[id].(content := content));
            && after.rows == db.rows[id := db.rows[id].(content := content)]
            && NoDangling(after.rows)
  {
    hide Postings;
  }

  // ---- Room versions ----

  predicate Inserts(db: Db, s: Stmt, channel: string) {
    s.Insert? && !s.refused && CanInsert(db, s.id, s.row) && s.row.channel == channel
  }

  // Messages inserted into a channel since it was created, given `n` so far.
  function Inserted(tok: Tokenizer, db: Db, stmts: seq<Stmt>, channel: string, n: nat): nat
    decreases |stmts|
  {
    if stmts == [] then n
    else
      var s := stmts[0];
      var n' := if s.CreateChannel? && s.channel == channel && channel !in db.channels then 0
                else if Inserts(db, s, channel) then n + 1
                else n;
      Inserted(tok, Step(tok, db, s), stmts[1..], channel, n')
  }

  // room_version is the number of messages ever inserted into the channel: edits, deletions and failed
  // statements leave it alone.
  lemma {:induction false} RoomVersionCounts(tok: Tokenizer, db: Db, stmts: seq<Stmt>, channel: string, n: nat)
    requires db.versions.Keys == db.channels.Keys && WellFormedRun(tok, db, stmts)
    requires channel in db.channels ==> db.versions[channel] == n
    ensures var after := Run(tok, db, stmts);
            channel in after.channels ==>
              channel in after.versions && after.versions[channel] == Inserted(tok, db, stmts, channel, n)
    decreases |stmts|
  {
    if stmts != [] {
      var s := stmts[0];
      VersionStep(tok, db, s, channel);
      var n' := if s.CreateChannel? && s.channel == channel && channel !in db.channels then 0
                else if Inserts(db, s, channel) then n + 1
                else n;
      hide Step, WellFormed, Inserts;
      RoomVersionCounts(tok, Step(tok, db, s), stmts[1..], channel, n');
    }
  }

  lemma {:induction false} VersionStep(tok: Tokenizer, db: Db, s: Stmt, channel: string)
    requires db.versions.Keys == db.channels.Keys && WellFormed(db, s)
    ensures var after := Step(tok, db, s);
            && after.versions.Keys == after.channels.Keys
            && (channel in after.channels && channel !in db.channels ==>
                  s.CreateChannel? && s.channel == channel && after.versions[channel] == 0)
            && (channel in after.channels && channel in db.channels ==>
                  after.versions[channel] == db.versions[channel] + (if Inserts(db, s, channel) then 1 else 0))
  {
    hide FiredAll, RowsDeleted, Postings, NoDangling, BumpedRows, Bumped;
    if s.Insert? {
      AfterTriggers(tok, db.(rows := db.rows[s.id := s.row]), s.id, s.row, s.order);
    } else if s.Delete? {
      RowsDeletedFrame(tok, db, s.victims, s.replyFirst);
    }
  }

  // ---- Searching ----

  // Do the postings spell the phrase at this position of the message?
  predicate PhraseAt(index: multiset<Posting>, id: string, phrase: seq<string>, at: nat) {
    forall k :: 0 <= k < |phrase| ==> Posting(id, at + k, phrase[k]) in index
  }

  predicate HasPhrase(index: multiset<Posting>, id: string, phrase: seq<string>) {
    phrase == [] || exists p :: p in index && p.id == id && PhraseAt(index, id, phrase, p.at)
  }

  // MATCH on a list of phrases: all of them, where phrases without tokens are passed over and a query
  // with no token at all matches nothing.
  predicate Matches(tok: Tokenizer, index: multiset<Posting>, id: string, phrases: seq<string>) {
    && (exists i :: 0 <= i < |phrases| && tok(phrases[i]) != [])
    && (forall i :: 0 <= i < |phrases| ==> HasPhrase(index, id, tok(phrases[i])))
  }

  // The WHERE clauses of the three branches.
  predicate InScope(db: Db, id: string, channel: string, workspace: string)
    requires id in db.rows
  {
    var c := db.rows[id].channel;
    if channel != "" then c == channel
    else if workspace != "" then c in db.channels && db.channels[c] == workspace
    else true
  }

  function SearchRows(tok: Tokenizer, db: Db, query: string, channel: string, workspace: string): set<string> {
    match ParsePhrases(Sanitize(query))
    case None => {}
    case Some(phrases) =>
      set id | id in db.rows.Keys && InScope(db, id, channel, workspace) && Matches(tok, db.index, id, phrases)
  }

  // The reference: read every message in scope and look for the tokens of each word, side by side.
  predicate SpelledAt(tokens: seq<string>, phrase: seq<string>, at: nat) {
    at + |phrase| <= |tokens| && tokens[at..at + |phrase|] == phrase
  }

  predicate Contiguous(tokens: seq<string>, phrase: seq<string>) {
    exists at: nat :: at <= |tokens| && SpelledAt(tokens, phrase, at)
  }

  predicate MatchesText(tok: Tokenizer, content: string, words: seq<string>) {
    && (exists i :: 0 <= i < |words| && tok(words[i]) != [])
    && (forall i :: 0 <= i < |words| ==> Contiguous(tok(content), tok(words[i])))
  }

  function ScanRows(tok: Tokenizer, db: Db, query: string, channel: string, workspace: string): set<string> {
    set id | id in db.rows.Keys && InScope(db, id, channel, workspace)
             && MatchesText(tok, db.rows[id].content, Fields(query))
  }

  // Being posted under a live message is being one of its tokens.
  lemma {:induction false} PostedIff(tok: Tokenizer, db: Db, p: Posting)
    requires Agrees(tok, db.index, db.rows) && p.id in db.rows
    ensures p in db.index <==> Holds(p.id, tok(db.rows[p.id].content), p)
  {
    assert Expected(tok, db.rows, p) <==> Holds(p.id, tok(db.rows[p.id].content), p);
  }

  lemma {:induction false} PhraseSpelled(tok: Tokenizer, db: Db, id: string, phrase: seq<string>, at: nat)
    requires Agrees(tok, db.index, db.rows) && id in db.rows && phrase != []
    ensures PhraseAt(db.index, id, phrase, at) <==> SpelledAt(tok(db.rows[id].content), phrase, at)
  {
    hide Agrees;
    var tokens := tok(db.rows[id].content);
    forall k | 0 <= k < |phrase|
      ensures Posting(id, at + k, phrase[k]) in db.index <==> at + k < |tokens| && tokens[at + k] == phrase[k]
    {
      PostedIff(tok, db, Posting(id, at + k, phrase[k]));
    }
    if PhraseAt(db.index, id, phrase, at) {
      var last := |phrase| - 1;
      assert phrase[last] == phrase[last] && at + last < |tokens|;
      assert tokens[at..at + |phrase|] == phrase;
    }
    if SpelledAt(tokens, phrase, at) {
      var slice := tokens[at..at + |phrase|];
      assert forall k :: 0 <= k < |phrase| ==> slice[k] == tokens[at + k];
    }
  }

  lemma {:induction false} PhraseFound(tok: Tokenizer, db: Db, id: string, phrase: seq<string>)
    requires Agrees(tok, db.index, db.rows) && id in db.rows
    ensures HasPhrase(db.index, id, phrase) <==> Contiguous(tok(db.rows[id].content), phrase)
  {
    hide Agrees, PhraseAt, SpelledAt;
    var tokens := tok(db.rows[id].content);
    if phrase == [] {
      EmptySpelled(tokens);
    } else {
      forall at: nat
        ensures PhraseAt(db.index, id, phrase, at) <==> SpelledAt(tokens, phrase, at)
        ensures SpelledAt(tokens, phrase, at) ==> at <= |tokens| && Posting(id, at, phrase[0]) in db.index
      {
        PhraseSpelled(tok, db, id, phrase, at);
        FirstPosted(tok, db, id, phrase, at);
      }
      if HasPhrase(db.index, id, phrase) {
        var p :| p in db.index && p.id == id && PhraseAt(db.index, id, phrase, p.at);
        assert SpelledAt(tokens, phrase, p.at);
      }
      if Contiguous(tokens, phrase) {
        var at: nat :| at <= |tokens| && SpelledAt(tokens, phrase, at);
        var first := Posting(id, at, phrase[0]);
        assert first in db.index && PhraseAt(db.index, id, phrase, first.at);
      }
    }
  }

  lemma {:induction false} EmptySpelled(tokens: seq<string>)
    ensures Contiguous(tokens, [])
  {
    assert SpelledAt(tokens, [], 0);
  }

  lemma {:induction false} FirstPosted(tok: Tokenizer, db: Db, id: string, phrase: seq<string>, at: nat)
    requires Agrees(tok, db.index, db.rows) && id in db.rows && phrase != []
    ensures SpelledAt(tok(db.rows[id].content), phrase, at) ==>
      at <= |tok(db.rows[id].content)| && Posting(id, at, phrase[0]) in db.index
  {
    hide Agrees;
    var tokens := tok(db.rows[id].content);
    if SpelledAt(tokens, phrase, at) {
      assert tokens[at..at + |phrase|][0] == tokens[at];
      PostedIff(tok, db, Posting(id, at, phrase[0]));
    }
  }

  // Whatever the user typed and in every one of the three scopes, the index finds exactly the messages
  // a full scan for the user's words would find.
  lemma {:induction false} SearchEqualsScan(tok: Tokenizer, db: Db, query: string, channel: string, workspace: string)
    requires Agrees(tok, db.index, db.rows)
    ensures SearchRows(tok, db, query, channel, workspace) == ScanRows(tok, db, query, channel, workspace)
  {
    hide Sanitize, ParsePhrases, Fields, HasPhrase, Contiguous, Agrees;
    QuotingRoundTrip(query);
    var words := Fields(query);
    forall id, i | id in db.rows && 0 <= i < |words|
      ensures HasPhrase(db.index, id, tok(words[i])) <==> Contiguous(tok(db.rows[id].content), tok(words[i]))
    {
      PhraseFound(tok, db, id, tok(words[i]));
    }
  }

  // A blank query needs no access to the table.
  lemma {:induction false} BlankFindsNothing(tok: Tokenizer, db: Db, query: string, channel: string, workspace: string)
    requires Sanitize(query) == ""
    ensures SearchRows(tok, db, query, channel, workspace) == {}
  {
    assert ParsePhrases("") == Some([]);
  }

  // What a search finds, in full: a message is found if and only if it is in the asked channel (or else in a
  // channel of the asked workspace, or else anywhere), at least one word of the query has a token, and the
  // tokens of every word stand side by side in the message.
  lemma {:induction false} SearchExactly(tok: Tokenizer, db: Db, query: string, channel: string, workspace: string, id: string)
    requires Agrees(tok, db.index, db.rows)
    ensures id in SearchRows(tok, db, query, channel, workspace) <==>
              && id in db.rows
              && (channel != "" ==> db.rows[id].channel == channel)
              && (channel == "" && workspace != "" ==>
                    db.rows[id].channel in db.channels && db.channels[db.rows[id].channel] == workspace)
              && (exists w :: w in Fields(query) && tok(w) != [])
              && (forall w :: w in Fields(query) ==> SideBySide(tok(db.rows[id].content), tok(w)))
  {
    SearchEqualsScan(tok, db, query, channel, workspace);
    hide SearchRows, Fields;
    if id in db.rows {
      var words, tokens := Fields(query), tok(db.rows[id].content);
      forall w
        ensures Contiguous(tokens, tok(w)) <==> SideBySide(tokens, tok(w))
      {
        SameSpelling(tokens, tok(w));
      }
      assert forall i :: 0 <= i < |words| ==> words[i] in words;
      assert forall w :: w in words ==> exists i :: 0 <= i < |words| && words[i] == w;
    }
  }

  ghost predicate SideBySide(tokens: seq<string>, phrase: seq<string>) {
    exists before, after :: tokens == before + phrase + after
  }

  lemma {:induction false} SameSpelling(tokens: seq<string>, phrase: seq<string>)
    ensures Contiguous(tokens, phrase) <==> SideBySide(tokens, phrase)
  {
    if Contiguous(tokens, phrase) {
      var at: nat :| at <= |tokens| && SpelledAt(tokens, phrase, at);
      assert tokens == tokens[..at] + phrase + tokens[at + |phrase|..];
    }
    if SideBySide(tokens, phrase) {
      var before, after :| tokens == before + phrase + after;
      assert tokens[|before|..|before| + |phrase|] == phrase;
      assert SpelledAt(tokens, phrase, |before|);
    }
  }

  lemma {:induction false} SearchAfterRun(tok: Tokenizer, stmts: seq<Stmt>, query: string, channel: string, workspace: string)
    requires WellFormedRun(tok, EMPTY, stmts) && AllIndexedOnce(tok, EMPTY, stmts)
    ensures var db := Run(tok, EMPTY, stmts);
            SearchRows(tok, db, query, channel, workspace) == ScanRows(tok, db, query, channel, workspace)
  {
    StoreConsistent(tok, stmts);
    SearchEqualsScan(tok, Run(tok, EMPTY, stmts), query, channel, workspace);
  }

  // ---- The store, updated in place ----

  class Store {
    var rows: map<string, Row>
    var index: multiset<Posting>
    var channels: map<string, string>
    var versions: map<string, nat>
    var members: set<string>
    const tok: Tokenizer

    constructor (tok: Tokenizer)
      ensures Snapshot() == EMPTY && this.tok == tok
    {
      this.tok := tok;
      rows, index, channels, versions, members := map[], multiset{}, map[], map[], {};
    }

    ghost function Snapshot(): Db
      reads this
    {
      Db(rows, index, channels, versions, members)
    }

    method FtsInsertRow(id: string, content: string)
      modifies this`index
      ensures Snapshot() == Indexed(tok, old(Snapshot()), id, content)
    {
      index := index + Postings(id, tok(content));
    }

    method FtsDeleteRow(id: string, content: string)
      modifies this`index
      ensures Snapshot() == Unindexed(tok, old(Snapshot()), id, content)
    {
      index := index - Postings(id, tok(content));
    }

    // An UPDATE of one row and the messages_au trigger it fires.
    method UpdateRow(id: string, row: Row)
      requires id in rows
      modifies this`rows, this`index
      ensures Snapshot() == Updated(tok, old(Snapshot()), id, row)
    {
      hide Postings;
      var before := rows[id];
      rows := rows[id := row];
      FtsDeleteRow(id, before.content);
      FtsInsertRow(id, row.content);
    }

    // trg_reply_count_insert and trg_reply_count_delete
    method BumpReplyCount(parent: Option<string>, delta: int)
      modifies this`rows, this`index
      ensures Snapshot() == Bumped(tok, old(Snapshot()), parent, delta)
    {
      hide Updated;
      if parent.Some? && parent.value in rows {
        var row := rows[parent.value];
        UpdateRow(parent.value, row.(replyCount := row.replyCount + delta));
      }
    }

    method FireInsertTrigger(id: string, row: Row, t: InsertTrigger)
      modifies this
      ensures Snapshot() == Fired(tok, old(Snapshot()), id, row, t)
    {
      hide Bumped, Indexed;
      match t
      case ReplyCount => BumpReplyCount(row.thread, 1);
      case FtsInsert => FtsInsertRow(id, row.content);
      case RoomVersion =>
        if row.channel in versions {
          versions := versions[row.channel := versions[row.channel] + 1];
        }
    }

    // CreateMessage
    method InsertMessage(id: string, row: Row, order: seq<InsertTrigger>, refused: bool)
      modifies this
      ensures Snapshot() == Step(tok, old(Snapshot()), Insert(id, row, order, refused))
    {
      hide Fired;
      if refused || !CanInsert(Db(rows, index, channels, versions, members), id, row) {
        return;
      }
      rows := rows[id := row];
      ghost var start := Snapshot();
      for i := 0 to |order|
        invariant FiredAll(tok, Snapshot(), id, row, order[i..]) == FiredAll(tok, start, id, row, order)
      {
        assert order[i..][1..] == order[i + 1..];
        FireInsertTrigger(id, row, order[i]);
      }
    }

    // UpdateMessage
    method EditMessage(id: string, content: string, refused: bool)
      modifies this
      ensures Snapshot() == Step(tok, old(Snapshot()), Edit(id, content, refused))
      ensures rows == if !refused && id in old(rows) then old(rows)[id := old(rows)[id].(content := content)] else old(rows)
      ensures channels == old(channels) && versions == old(versions) && members == old(members)
    {
      EditExactly(tok, Snapshot(), Edit(id, content, refused));
      hide Updated;
      if !refused && id in rows {
        UpdateRow(id, rows[id].(content := content));
      }
    }

    method DeleteRow(id: string, replyFirst: bool)
      modifies this`rows, this`index
      ensures Snapshot() == RowDeleted(tok, old(Snapshot()), id, replyFirst)
    {
      hide Bumped, Postings;
      if id !in rows {
        return;
      }
      var row := rows[id];
      rows := rows - {id};
      if replyFirst {
        BumpReplyCount(row.thread, -1);
        FtsDeleteRow(id, row.content);
      } else {
        FtsDeleteRow(id, row.content);
        BumpReplyCount(row.thread, -1);
      }
    }

    // The victims go one by one with their triggers; the foreign key is checked at the end.
    method DeleteRows(victims: seq<string>, gone: set<string>, leavers: set<string>, replyFirst: bool, refused: bool)
      modifies this
      ensures Snapshot() == Step(tok, old(Snapshot()), Delete(victims, gone, leavers, replyFirst, refused))
    {
      hide RowDeleted;
      var rows0, index0 := rows, index;
      for i := 0 to |victims|
        invariant RowsDeleted(tok, Snapshot(), victims[i..], replyFirst) == RowsDeleted(tok, old(Snapshot()), victims, replyFirst)
        invariant channels == old(channels) && versions == old(versions) && members == old(members)
      {
        assert victims[i..][1..] == victims[i + 1..];
        DeleteRow(victims[i], replyFirst);
      }
      if refused || !NoDangling(rows) {
        rows, index := rows0, index0;
        return;
      }
      channels, versions, members := channels - gone, versions - gone, members - leavers;
    }

    // DeleteMessage, or the cascade of DeleteChannel, DeleteMember and DeleteWorkspace.
    method DeleteMessages(victims: seq<string>, gone: set<string>, leavers: set<string>, replyFirst: bool, refused: bool)
      modifies this
      ensures Snapshot() == Step(tok, old(Snapshot()), Delete(victims, gone, leavers, replyFirst, refused))
      // It goes through if and only if no message that stays is in the thread of one that goes.
      ensures var through := && !refused
                             && forall m :: m in old(rows) && m !in victims && old(rows)[m].thread.Some? ==>
                                  old(rows)[m].thread.value in old(rows) && old(rows)[m].thread.value !in victims;
              if !through then Snapshot() == old(Snapshot())
              else
                && (forall m :: m in rows <==> m in old(rows) && m !in victims)
                && (forall m :: m in rows ==> rows[m] == old(rows)[m].(replyCount := rows[m].replyCount))
                && channels == old(channels) - gone && versions == old(versions) - gone && members == old(members) - leavers
    {
      hide RowDeleted, RowsDeleted;
      DeleteExactly(tok, Snapshot(), Delete(victims, gone, leavers, replyFirst, refused));
      DeleteRows(victims, gone, leavers, replyFirst, refused);
    }

    // SearchMessages, before ORDER BY and LIMIT.
    method SearchMessages(query: string, channel: string, workspace: string) returns (found: set<string>)
      ensures found == SearchRows(tok, Snapshot(), query, channel, workspace)
      ensures Agrees(tok, index, rows) ==> found == ScanRows(tok, Snapshot(), query, channel, workspace)
    {
      hide Sanitize, ParsePhrases, Matches, ScanRows, Agrees;
      if Agrees(tok, index, rows) {
        SearchEqualsScan(tok, Snapshot(), query, channel, workspace);
      }
      var sanitized := SanitizeFTS5Query(query);
      if sanitized == "" {
        BlankFindsNothing(tok, Snapshot(), query, channel, workspace);
        return {};
      }
      var parsed := ParsePhrases(sanitized);
      if parsed.None? {
        return {};
      }
      if channel != "" {
        found := set id | id in rows.Keys && rows[id].channel == channel && Matches(tok, index, id, parsed.value);
      } else if workspace != "" {
        found := set id | id in rows.Keys && rows[id].channel in channels && channels[rows[id].channel] == workspace
                          && Matches(tok, index, id, parsed.value);
      } else {
        found := set id | id in rows.Keys && Matches(tok, index, id, parsed.value);
      }
    }
  }
}
