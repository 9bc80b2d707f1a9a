// splitMigrationSQL of internal/server/store/sqlite.go: cutting a migration script into statements
// while keeping CREATE TRIGGER ... BEGIN ... END blocks whole. Scripts are ASCII.
module MigrationSplitter {
  import opened Text

  const CREATE_TRIGGER := "CREATE TRIGGER"
  const BEGIN := "BEGIN"
  const END := "END"

  // The cutset of the TrimLeft after a trigger.
  const SEPARATORS := Chars("; \t\n")

  // ---- Specification ----

  function NonBlank(s: string): seq<string> {
    var t := TrimSpace(s);
    if t == "" then [] else [t]
  }

  function NonBlanks(parts: seq<string>): seq<string> {
    if parts == [] then [] else NonBlank(parts[0]) + NonBlanks(parts[1..])
  }

  // Trimmed, non-empty pieces between semicolons.
  function Pieces(s: string): seq<string> { NonBlanks(SplitOn(s, ';')) }

  // Length of the trigger block at the start of s, or -1 when its BEGIN or END is missing.
  function BlockLength(s: string): (n: int)
    ensures n == -1 || 3 <= n <= |s|
  {
    var upper := ToUpper(s);
    var begin := Index(upper, BEGIN);
    if begin < 0 then -1
    else
      var end := Index(upper[begin..], END);
      if end < 0 then -1 else begin + end + 3
  }

  function Split(sql: string): seq<string>
    decreases |sql|, 1
  {
    var trig := Index(ToUpper(sql), CREATE_TRIGGER);
    if trig < 0 then Pieces(sql) else Pieces(sql[..trig]) + SplitBlock(sql[trig..])
  }

  // The rest of the script, from a CREATE TRIGGER on.
  function SplitBlock(block: string): seq<string>
    decreases |block|, 0
  {
    var n := BlockLength(block);
    if n < 0 then [TrimSpace(block)] else [TrimSpace(block[..n])] + Split(AfterBlock(block, n))
  }

  // The text after a trigger, past its optional semicolon.
  function AfterBlock(block: string, n: nat): (rest: string)
    requires n <= |block|
    ensures |rest| <= |block| - n
  {
    TrimLeft(block[n..], SEPARATORS)
  }

  // One unfolding of the specification, case by case.

  lemma {:induction false} SplitNoTrigger(sql: string)
    requires Index(ToUpper(sql), CREATE_TRIGGER) < 0
    ensures Split(sql) == Pieces(sql)
  {
  }

  lemma {:induction false} SplitAtTrigger(sql: string, trig: nat)
    requires trig == Index(ToUpper(sql), CREATE_TRIGGER)
    ensures Split(sql) == Pieces(sql[..trig]) + SplitBlock(sql[trig..])
  {
  }

  lemma {:induction false} SplitOpenBlock(block: string)
    requires BlockLength(block) < 0
    ensures SplitBlock(block) == [TrimSpace(block)]
  {
  }

  lemma {:induction false} SplitClosedBlock(block: string, n: nat)
    requires n == BlockLength(block)
    ensures SplitBlock(block) == [TrimSpace(block[..n])] + Split(AfterBlock(block, n))
  {
    hide BlockLength, TrimSpace, Split;
  }

  // ---- The loop ----

  method AppendPieces(result: seq<string>, text: string) returns (out: seq<string>)
    ensures out == result + Pieces(text)
  {
    out := result;
    var parts := SplitOn(text, ';');
    for i := 0 to |parts|
      invariant out + NonBlanks(parts[i..]) == result + Pieces(text)
    {
      var s := TrimSpace(parts[i]);
      assert parts[i..][1..] == parts[i + 1..];
      if s != "" {
        out := out + [s];
      }
    }
  }

  // `upper` is cut alongside `sql` and stays its upper-case image; the text left strictly shrinks.
  method SplitMigrationSQL(script: string) returns (result: seq<string>)
    ensures result == Split(script)
  {
    result := [];
    var sql := script;
    var upper := ToUpper(sql);
    while true
      invariant upper == ToUpper(sql)
      invariant result + Split(sql) == Split(script)
      decreases |sql|
    {
      hide *;
      var trigIdx := Index(upper, CREATE_TRIGGER);
      if trigIdx < 0 {
        SplitNoTrigger(sql);
        result := AppendPieces(result, sql);
        return;
      }
      ghost var block := sql[trigIdx..];
      SplitAtTrigger(sql, trigIdx);
      ConcatAssoc(result, Pieces(sql[..trigIdx]), SplitBlock(block));
      result := AppendPieces(result, sql[..trigIdx]);
      ToUpperDrop(sql, trigIdx);
      var n := TriggerEnd(block, upper[trigIdx..]);
      if n < 0 {
        SplitOpenBlock(block);
        result := result + [TrimSpace(sql[trigIdx..])];
        return;
      }
      SplitClosedBlock(block, n);
      ConcatAssoc(result, [TrimSpace(block[..n])], Split(AfterBlock(block, n)));
      var trigger;
      trigger, sql, upper := CutTrigger(sql, upper, trigIdx, n);
      result := result + [trigger];
    }
  }

  // Finds the END after the BEGIN; -1 for a malformed trigger.
  method TriggerEnd(ghost block: string, upper: string) returns (n: int)
    requires upper == ToUpper(block)
    ensures n == BlockLength(block)
  {
    var beginIdx := Index(upper, BEGIN);
    if beginIdx < 0 {
      return -1;
    }
    var endIdx := Index(upper[beginIdx..], END);
    if endIdx < 0 {
      return -1;
    }
    return beginIdx + endIdx + 3; // +3 for END
  }

  // Takes the trigger out, moves past it and skips the optional semicolon, in both copies of the text.
  method CutTrigger(sql: string, upper: string, trigIdx: nat, n: nat)
    returns (trigger: string, sql': string, upper': string)
    requires upper == ToUpper(sql) && trigIdx + n <= |sql| && n > 0
    ensures trigger == TrimSpace(sql[trigIdx..][..n])
    ensures sql' == AfterBlock(sql[trigIdx..], n) && upper' == ToUpper(sql')
    ensures |sql'| < |sql|
  {
    hide ToUpper, TrimLeft, TrimSpace;
    var absEnd := trigIdx + n;
    SliceOfSuffix(sql, trigIdx, n);
    trigger := TrimSpace(sql[trigIdx..absEnd]);
    ToUpperDrop(sql, absEnd);
    TrimLeftUpper(sql[absEnd..]);
    sql' := sql[absEnd..];
    upper' := upper[absEnd..];
    sql' := TrimLeft(sql', SEPARATORS);
    upper' := TrimLeft(upper', SEPARATORS);
  }

  lemma {:induction false} TrimLeftUpper(s: string)
    ensures ToUpper(TrimLeft(s, SEPARATORS)) == TrimLeft(ToUpper(s), SEPARATORS)
  {
    if s != "" && SEPARATORS.Has(s[0]) {
      TrimLeftUpper(s[1..]);
      assert ToUpper(s)[1..] == ToUpper(s[1..]);
    }
  }

  // ---- Where a trigger block ends ----

  ghost predicate FirstAt(s: string, pat: string, from: nat, i: nat) {
    from <= i && Occurs(s, pat, i) && forall k :: from <= k < i ==> !Occurs(s, pat, k)
  }

  ghost predicate NoneFrom(s: string, pat: string, from: nat) {
    forall i :: from <= i ==> !Occurs(s, pat, i)
  }

  // A block ends with the first END at or after the first BEGIN, in any case of letters; and it has no end
  // if and only if there is no BEGIN, or no END after it.
  lemma {:induction false} BlockExactly(s: string)
    ensures forall b: nat, e: nat :: FirstAt(ToUpper(s), "BEGIN", 0, b) && FirstAt(ToUpper(s), "END", b, e)
                                     ==> BlockLength(s) == e + 3
    ensures BlockLength(s) < 0 <==>
              || NoneFrom(ToUpper(s), "BEGIN", 0)
              || exists b: nat :: FirstAt(ToUpper(s), "BEGIN", 0, b) && NoneFrom(ToUpper(s), "END", b)
  {
    var u := ToUpper(s);
    IndexFirst(u, "BEGIN");
    var begin := Index(u, "BEGIN");
    if begin < 0 {
      assert BlockLength(s) == -1;
      hide ToUpper, Index, BlockLength;
      assert NoneFrom(u, "BEGIN", 0);
    } else {
      var end := Index(u[begin..], "END");
      assert BlockLength(s) == if end < 0 then -1 else begin + end + 3;
      FirstBegin(u, begin);
      EndsAfter(u, begin);
      hide *;
      assert forall b: nat :: FirstAt(u, "BEGIN", 0, b) ==> b == begin;
    }
  }

  lemma {:induction false} FirstBegin(u: string, begin: nat)
    requires begin == Index(u, "BEGIN")
    ensures FirstAt(u, "BEGIN", 0, begin) && !NoneFrom(u, "BEGIN", 0)
    ensures forall b: nat :: FirstAt(u, "BEGIN", 0, b) ==> b == begin
  {
    IndexFirst(u, "BEGIN");
    hide Index;
  }

  lemma {:induction false} EndsAfter(u: string, begin: nat)
    requires begin <= |u|
    ensures var end := Index(u[begin..], "END");
            && (end < 0 <==> NoneFrom(u, "END", begin))
            && (forall e: nat :: FirstAt(u, "END", begin, e) ==> e == begin + end && end >= 0)
  {
    var tail := u[begin..];
    IndexFirst(tail, "END");
    hide Index;
    forall e: nat | begin <= e
      ensures Occurs(u, "END", e) <==> Occurs(tail, "END", e - begin)
    {
      if e + 3 <= |u| {
        assert u[e..e + 3] == tail[e - begin..e - begin + 3];
      }
    }
    var end := Index(tail, "END");
    if end >= 0 {
      assert Occurs(u, "END", begin + end);
    }
  }

  // ---- Which statements survive a join and a split ----

  predicate Plain(s: string) {
    s != "" && Trimmed(s) && ';' !in s && !Contains(ToUpper(s), "CREATE TRIGGER")
  }

  predicate OpensTrigger(s: string) { Occurs(ToUpper(s), "CREATE TRIGGER", 0) }

  // The first END after the first BEGIN closes the statement.
  predicate ClosedTrigger(s: string) { OpensTrigger(s) && BlockLength(s) == |s| }

  // No BEGIN, or no END after it: everything that follows would be swallowed.
  predicate UnclosedTrigger(s: string) { OpensTrigger(s) && Trimmed(s) && BlockLength(s) < 0 }

  ghost predicate Survives(stmts: seq<string>) {
    forall i :: 0 <= i < |stmts| ==>
      || Plain(stmts[i])
      || ClosedTrigger(stmts[i])
      || (i == |stmts| - 1 && UnclosedTrigger(stmts[i]))
  }

  function Join(stmts: seq<string>): string {
    if stmts == [] then ""
    else if |stmts| == 1 then stmts[0]
    else stmts[0] + ";\n" + Join(stmts[1..])
  }

  // ---- Every output survives ----

  lemma {:induction false} MiddleSlice(a: string, b: string, c: string)
    ensures (a + b + c)[|a|..|a| + |b|] == b
    ensures forall x :: x in b ==> x in a + b + c
  {
    assert forall i :: 0 <= i < |b| ==> (a + b + c)[|a| + i] == b[i];
  }

  lemma {:induction false} NonBlankPlain(s: string)
    requires ';' !in s && !Contains(ToUpper(s), CREATE_TRIGGER)
    ensures TrimSpace(s) == "" || Plain(TrimSpace(s))
  {
    hide ToUpper, Contains, TrimSpace, Trimmed, AllIn;
    var left, right := TrimSpaceParts(s);
    var t := TrimSpace(s);
    MiddleSlice(left, t, right);
    ToUpperSlice(s, |left|, |left| + |t|);
    AbsentFromSlice(ToUpper(s), CREATE_TRIGGER, |left|, |left| + |t|);
  }

  lemma {:induction false} NonBlanksPlain(parts: seq<string>)
    requires forall i :: 0 <= i < |parts| ==> ';' !in parts[i] && !Contains(ToUpper(parts[i]), CREATE_TRIGGER)
    ensures forall i :: 0 <= i < |NonBlanks(parts)| ==> Plain(NonBlanks(parts)[i])
  {
    hide ToUpper, Contains, TrimSpace, Plain;
    if parts != [] {
      NonBlanksPlain(parts[1..]);
      NonBlankPlain(parts[0]);
    }
  }

  // A piece between semicolons is a slice of the text; the first one starts at 0.
  lemma {:induction false} PartIsSlice(s: string, i: nat) returns (start: nat)
    requires i < |SplitOn(s, ';')|
    ensures var part := SplitOn(s, ';')[i];
            ';' !in part && start + |part| <= |s| && s[start..start + |part|] == part
    ensures i == 0 ==> start == 0
  {
    if s == "" || (s[0] == ';' && i == 0) {
      start := 0;
    } else if i > 0 {
      var j := if s[0] == ';' then i - 1 else i;
      var k := PartIsSlice(s[1..], j);
      start := k + 1;
      LaterPart(s, i, j);
      SliceShift(s, k, |SplitOn(s, ';')[i]|);
      hide SplitOn;
    } else {
      var _ := PartIsSlice(s[1..], 0);
      start := 0;
      LongerPart(s);
      hide SplitOn;
    }
  }

  lemma {:induction false} LaterPart(s: string, i: nat, j: nat)
    requires s != "" && 0 < i < |SplitOn(s, ';')| && j == if s[0] == ';' then i - 1 else i
    ensures j < |SplitOn(s[1..], ';')| && SplitOn(s, ';')[i] == SplitOn(s[1..], ';')[j]
  {
  }

  lemma {:induction false} LongerPart(s: string)
    requires s != "" && s[0] != ';'
    requires var part := SplitOn(s[1..], ';')[0]; ';' !in part && |part| < |s| && s[1..][..|part|] == part
    ensures var part := SplitOn(s, ';')[0]; ';' !in part && |part| <= |s| && s[..|part|] == part
  {
    var tail := SplitOn(s[1..], ';')[0];
    assert SplitOn(s, ';')[0] == [s[0]] + tail;
    assert s[..1 + |tail|] == [s[0]] + s[1..][..|tail|];
  }

  lemma {:induction false} PartsAbsent(s: string)
    requires !Contains(ToUpper(s), CREATE_TRIGGER)
    ensures forall i :: 0 <= i < |SplitOn(s, ';')| ==>
      ';' !in SplitOn(s, ';')[i] && !Contains(ToUpper(SplitOn(s, ';')[i]), CREATE_TRIGGER)
  {
    forall i | 0 <= i < |SplitOn(s, ';')|
      ensures ';' !in SplitOn(s, ';')[i] && !Contains(ToUpper(SplitOn(s, ';')[i]), CREATE_TRIGGER)
    {
      PartAbsent(s, i);
    }
  }

  lemma {:induction false} PartAbsent(s: string, i: nat)
    requires !Contains(ToUpper(s), CREATE_TRIGGER) && i < |SplitOn(s, ';')|
    ensures ';' !in SplitOn(s, ';')[i] && !Contains(ToUpper(SplitOn(s, ';')[i]), CREATE_TRIGGER)
  {
    hide SplitOn, ToUpper, IndexFrom;
    var lo := PartIsSlice(s, i);
    var hi := lo + |SplitOn(s, ';')[i]|;
    ToUpperSlice(s, lo, hi);
    AbsentFromSlice(ToUpper(s), CREATE_TRIGGER, lo, hi);
  }

  lemma {:induction false} PiecesPlain(s: string)
    requires !Contains(ToUpper(s), CREATE_TRIGGER)
    ensures forall i :: 0 <= i < |Pieces(s)| ==> Plain(Pieces(s)[i])
  {
    PartsAbsent(s);
    NonBlanksPlain(SplitOn(s, ';'));
  }

  // END starts after the B and E of BEGIN, so the block covers all of BEGIN.
  lemma {:induction false} EndAfterBegin(upper: string, begin: nat, end: nat)
    requires Occurs(upper, BEGIN, begin) && Occurs(upper[begin..], END, end)
    ensures end + 3 >= |BEGIN|
  {
    var w := upper[begin..];
    assert w[..5] == upper[begin..begin + 5];
    assert w[0] == w[..5][0] == 'B' && w[1] == w[..5][1] == 'E' && w[2] == w[..5][2] == 'G';
    assert w[end] == w[end..end + 3][0] == 'E' && w[end + 1] == w[end..end + 3][1] == 'N';
  }

  // A block read from the front of a text is the same block when the text stops right after it, or
  // goes on differently.
  lemma {:induction false} BlockOfPrefix(s: string, hi: nat)
    requires hi <= |s| && BlockLength(s[..hi]) >= 0
    ensures BlockLength(s) == BlockLength(s[..hi])
  {
    var p := s[..hi];
    ToUpperSlice(s, 0, hi);
    var up, us := ToUpper(p), ToUpper(s);
    IndexOfPrefix(us, BEGIN, hi);
    var begin := Index(up, BEGIN);
    assert up[begin..] == us[begin..][..hi - begin];
    IndexOfPrefix(us[begin..], END, hi - begin);
  }

  lemma {:induction false} BlockInPrefix(s: string, hi: nat)
    requires 0 <= BlockLength(s) <= hi <= |s|
    ensures BlockLength(s[..hi]) == BlockLength(s)
  {
    ToUpperSlice(s, 0, hi);
    var us := ToUpper(s);
    var begin := Index(us, BEGIN);
    EndAfterBegin(us, begin, Index(us[begin..], END));
    IndexInPrefix(us, BEGIN, hi);
    assert us[..hi][begin..] == us[begin..][..hi - begin];
    IndexInPrefix(us[begin..], END, hi - begin);
  }

  // An opened trigger starts with C and the opening ends with R: neither is white space.
  lemma {:induction false} OpeningChars(s: string)
    requires OpensTrigger(s)
    ensures |s| >= |CREATE_TRIGGER| && s[0] in {'C', 'c'} && s[13] in {'R', 'r'}
  {
    var u := ToUpper(s);
    assert u[0] == u[0..|CREATE_TRIGGER|][0] == 'C';
    assert u[13] == u[0..|CREATE_TRIGGER|][13] == 'R';
    ToUpperAt(s, 0);
    ToUpperAt(s, 13);
  }

  // Blocks end with D, so trimming leaves them alone.
  lemma {:induction false} BlockTrimmed(s: string)
    requires OpensTrigger(s) && BlockLength(s) == |s|
    ensures Trimmed(s)
  {
    OpeningChars(s);
    var u := ToUpper(s);
    var begin := Index(u, BEGIN);
    var end := Index(u[begin..], END);
    assert u[|s| - 1] == u[begin..][end..end + 3][2] == 'D';
    ToUpperAt(s, |s| - 1);
  }

  lemma {:induction false} OpensInPrefix(s: string, hi: nat)
    requires OpensTrigger(s) && |CREATE_TRIGGER| <= hi <= |s|
    ensures OpensTrigger(s[..hi])
  {
    ToUpperSlice(s, 0, hi);
    OccursInSlice(ToUpper(s), CREATE_TRIGGER, 0, hi, 0);
  }

  // BEGIN cannot start inside the CREATE TRIGGER that opens the block.
  lemma {:induction false} BlockCoversOpening(s: string)
    requires OpensTrigger(s) && BlockLength(s) >= 0
    ensures BlockLength(s) >= |CREATE_TRIGGER|
  {
    var u := ToUpper(s);
    var begin := Index(u, BEGIN);
    assert u[begin] == u[begin..begin + 5][0] == 'B';
    if begin < |CREATE_TRIGGER| {
      assert u[begin] == u[0..|CREATE_TRIGGER|][begin] == CREATE_TRIGGER[begin];
    }
  }

  lemma {:induction false} UnclosedTail(block: string)
    requires OpensTrigger(block) && BlockLength(block) < 0
    ensures UnclosedTrigger(TrimSpace(block))
  {
    OpeningChars(block);
    hide ToUpper, BlockLength, TrimSpace, Occurs, Trimmed;
    var left, right := TrimSpaceParts(block);
    var t := TrimSpace(block);
    assert block == t + right && t == block[..|t|];
    assert forall i :: |t| <= i < |block| ==> block[i] == right[i - |t|];
    assert |t| >= |CREATE_TRIGGER|;
    OpensInPrefix(block, |t|);
    if BlockLength(t) >= 0 {
      BlockOfPrefix(block, |t|);
    }
  }

  lemma {:induction false} SurvivesConcat(a: seq<string>, b: seq<string>)
    requires forall i :: 0 <= i < |a| ==> Plain(a[i]) || ClosedTrigger(a[i])
    requires Survives(b)
    ensures Survives(a + b)
  {
    hide Plain, ClosedTrigger, UnclosedTrigger;
    var s := a + b;
    forall i | 0 <= i < |s|
      ensures Plain(s[i]) || ClosedTrigger(s[i]) || (i == |s| - 1 && UnclosedTrigger(s[i]))
    {
      if i >= |a| {
        assert s[i] == b[i - |a|];
      }
    }
  }

  lemma {:induction false} OutputsSurvive(sql: string)
    ensures Survives(Split(sql))
    decreases |sql|, 1
  {
    hide *;
    var upper := ToUpper(sql);
    var trig := Index(upper, CREATE_TRIGGER);
    if trig < 0 {
      SplitNoTrigger(sql);
      NoTriggerSurvives(sql);
    } else {
      SplitAtTrigger(sql, trig);
      BeforeTriggerPlain(sql, trig);
      BlockOutputsSurvive(sql[trig..]);
      SurvivesConcat(Pieces(sql[..trig]), SplitBlock(sql[trig..]));
    }
  }

  lemma {:induction false} NoTriggerSurvives(sql: string)
    requires Index(ToUpper(sql), CREATE_TRIGGER) < 0
    ensures Survives(Pieces(sql))
  {
    hide Plain, ClosedTrigger, UnclosedTrigger, Pieces;
    PiecesPlain(sql);
  }

  lemma {:induction false} BeforeTriggerPlain(sql: string, trig: nat)
    requires trig == Index(ToUpper(sql), CREATE_TRIGGER)
    ensures forall i :: 0 <= i < |Pieces(sql[..trig])| ==> Plain(Pieces(sql[..trig])[i])
    ensures OpensTrigger(sql[trig..])
  {
    hide Plain, Pieces, ToUpper, Index;
    var upper := ToUpper(sql);
    AbsentBefore(upper, CREATE_TRIGGER, trig);
    ToUpperSlice(sql, 0, trig);
    PiecesPlain(sql[..trig]);
    ToUpperDrop(sql, trig);
    OccursInSuffix(upper, CREATE_TRIGGER, trig);
  }

  // The block cut out at the first END after BEGIN is closed, and trimming leaves it alone.
  lemma {:induction false} CutBlockClosed(block: string, n: nat)
    requires OpensTrigger(block) && n == BlockLength(block)
    ensures ClosedTrigger(TrimSpace(block[..n]))
  {
    hide TrimSpace, Trimmed, BlockLength;
    BlockCoversOpening(block);
    OpensInPrefix(block, n);
    BlockInPrefix(block, n);
    BlockTrimmed(block[..n]);
    TrimmedFixed(block[..n]);
  }

  lemma {:induction false} BlockOutputsSurvive(block: string)
    requires OpensTrigger(block)
    ensures Survives(SplitBlock(block))
    decreases |block|, 0
  {
    hide *;
    var n := BlockLength(block);
    if n < 0 {
      SplitOpenBlock(block);
      UnclosedTail(block);
      SurvivesOne(TrimSpace(block));
    } else {
      SplitClosedBlock(block, n);
      CutBlockClosed(block, n);
      var rest := AfterBlock(block, n);
      OutputsSurvive(rest);
      SurvivesConcat([TrimSpace(block[..n])], Split(rest));
    }
  }

  // ---- Surviving statements come back ----

  lemma {:induction false} PiecesLeadingNewline(s: string)
    ensures Pieces("\n" + s) == Pieces(s)
  {
    var t := "\n" + s;
    assert t[1..] == s;
    var rest := SplitOn(s, ';');
    assert SplitOn(t, ';') == [['\n'] + rest[0]] + rest[1..];
    TrimLeadingSpace('\n', rest[0]);
    assert NonBlank(['\n'] + rest[0]) == NonBlank(rest[0]);
    assert ([['\n'] + rest[0]] + rest[1..])[1..] == rest[1..];
  }

  lemma {:induction false} PiecesOfPlain(p: string, rest: string)
    requires Plain(p)
    ensures Pieces(p) == [p]
    ensures Pieces(p + ";\n" + rest) == [p] + Pieces(rest)
  {
    TrimmedFixed(p);
    SplitOnAbsent(p, ';');
    assert NonBlanks([p]) == [p];
    assert p + ";\n" + rest == p + [';'] + ("\n" + rest);
    SplitOnFirst(p, ';', "\n" + rest);
    var tail := SplitOn("\n" + rest, ';');
    assert ([p] + tail)[1..] == tail;
    PiecesLeadingNewline(rest);
  }

  // Where the first trigger of p + ";\n" + rest is.
  lemma {:induction false} TriggerAcross(p: string, rest: string)
    requires Plain(p)
    ensures var t := Index(ToUpper(rest), CREATE_TRIGGER);
            Index(ToUpper(p + ";\n" + rest), CREATE_TRIGGER) == if t < 0 then -1 else |p| + 2 + t
  {
    ToUpperConcat(p + ";\n", rest);
    ToUpperConcat(p, ";\n");
    assert ToUpper(";\n") == ";\n" by {
      ToUpperAt(";\n", 0);
      ToUpperAt(";\n", 1);
    }
    IndexAcross(ToUpper(p), ";\n", ToUpper(rest), CREATE_TRIGGER);
  }

  lemma {:induction false} SplitPlain(p: string, rest: string)
    requires Plain(p)
    ensures Split(p + ";\n" + rest) == [p] + Split(rest)
  {
    hide *;
    TriggerAcross(p, rest);
    var sql := p + ";\n" + rest;
    var t := Index(ToUpper(rest), CREATE_TRIGGER);
    if t < 0 {
      SplitNoTrigger(sql);
      SplitNoTrigger(rest);
      PiecesOfPlain(p, rest);
    } else {
      var before, block := rest[..t], rest[t..];
      SplitAtTrigger(sql, |p| + 2 + t);
      SplitAtTrigger(rest, t);
      assert sql[..|p| + 2 + t] == p + ";\n" + before;
      assert sql[|p| + 2 + t..] == block;
      PiecesOfPlain(p, before);
    }
  }

  lemma {:induction false} SplitFromTrigger(s: string)
    requires OpensTrigger(s)
    ensures Split(s) == SplitBlock(s)
  {
    IndexIs(ToUpper(s), CREATE_TRIGGER, 0);
    assert s[..0] == "" && s[0..] == s;
    assert SplitOn("", ';') == [""] && NonBlank("") == [];
  }

  lemma {:induction false} SplitClosed(g: string, rest: string)
    requires ClosedTrigger(g)
    ensures Split(g + rest) == [g] + Split(TrimLeft(rest, SEPARATORS))
  {
    var sql := g + rest;
    assert sql[..|g|] == g && sql[|g|..] == rest;
    ToUpperSlice(sql, 0, |g|);
    OccursInSlice(ToUpper(sql), CREATE_TRIGGER, 0, |g|, 0);
    SplitFromTrigger(sql);
    BlockOfPrefix(sql, |g|);
    BlockTrimmed(g);
    TrimmedFixed(g);
  }

  lemma {:induction false} SplitUnclosed(u: string)
    requires UnclosedTrigger(u)
    ensures Split(u) == [u]
  {
    SplitFromTrigger(u);
    TrimmedFixed(u);
  }

  // A joined script starts with a character the separator trim keeps.
  lemma {:induction false} JoinStart(stmts: seq<string>)
    requires Survives(stmts)
    ensures TrimLeft(";\n" + Join(stmts), SEPARATORS) == Join(stmts)
  {
    var j := Join(stmts);
    assert (";\n" + j)[1..] == "\n" + j && ("\n" + j)[1..] == j;
    if stmts != [] {
      var s := stmts[0];
      assert s != "" && !SEPARATORS.Has(s[0]) by {
        if OpensTrigger(s) {
          OpeningChars(s);
        } else {
          assert s[0] in s;
        }
      }
      assert j[0] == s[0];
    }
    assert TrimLeft(";\n" + j, SEPARATORS) == TrimLeft("\n" + j, SEPARATORS) == TrimLeft(j, SEPARATORS) == j;
  }

  lemma {:induction false} SplitSingle(s: string)
    requires Plain(s) || ClosedTrigger(s) || UnclosedTrigger(s)
    ensures Split(s) == [s]
  {
    hide SplitBlock, ClosedTrigger, UnclosedTrigger;
    if Plain(s) {
      PiecesOfPlain(s, "");
    } else if ClosedTrigger(s) {
      SplitClosed(s, "");
      assert s + "" == s;
      SplitEmpty();
    } else {
      SplitUnclosed(s);
    }
  }

  lemma {:induction false} SplitEmpty()
    ensures Split("") == []
  {
    assert SplitOn("", ';') == [""] && NonBlank("") == [];
  }

  lemma {:induction false} SplitJoin(stmts: seq<string>)
    requires Survives(stmts)
    ensures Split(Join(stmts)) == stmts
    decreases |stmts|
  {
    hide Split, Plain, ClosedTrigger, UnclosedTrigger, TrimLeft;
    if stmts == [] {
      SplitEmpty();
    } else {
      var s, rest := stmts[0], stmts[1..];
      assert stmts == [s] + rest;
      if rest == [] {
        SplitSingle(s);
      } else {
        assert Survives(rest) by {
          assert forall i :: 0 <= i < |rest| ==> rest[i] == stmts[i + 1];
        }
        SplitJoin(rest);
        if Plain(s) {
          SplitPlain(s, Join(rest));
        } else {
          ConcatAssoc(s, ";\n", Join(rest));
          SplitClosed(s, ";\n" + Join(rest));
          JoinStart(rest);
        }
      }
    }
  }

  // Joining with ";\n" and splitting gives the statements back if and only if each one is plain or a
  // trigger closed by its first END, except that the last may be a trigger never closed.
  lemma {:induction false} RoundTrip(stmts: seq<string>)
    ensures Split(Join(stmts)) == stmts <==> Survives(stmts)
  {
    if Survives(stmts) {
      SplitJoin(stmts);
    }
    OutputsSurvive(Join(stmts));
  }

  // Splitting is a normal form: rejoining and splitting again changes nothing.
  lemma {:induction false} SplitIdempotent(sql: string)
    ensures Split(Join(Split(sql))) == Split(sql)
  {
    OutputsSurvive(sql);
    SplitJoin(Split(sql));
  }

  lemma {:induction false} SurvivesOne(s: string)
    ensures Join([s]) == s
    ensures Survives([s]) <==> Plain(s) || ClosedTrigger(s) || UnclosedTrigger(s)
  {
    hide Plain, ClosedTrigger, UnclosedTrigger;
    if Survives([s]) {
      assert [s][0] == s;
    }
  }

  // One trigger statement comes back whole exactly when the first END after its BEGIN is its end.
  lemma {:induction false} SingleTrigger(s: string)
    requires OpensTrigger(s) && Trimmed(s)
    ensures Split(s) == [s] <==> BlockLength(s) < 0 || BlockLength(s) == |s|
  {
    IndexFirst(ToUpper(s), CREATE_TRIGGER);
    RoundTrip([s]);
    SurvivesOne(s);
  }

  predicate NoLower(s: string) { forall i :: 0 <= i < |s| ==> !('a' <= s[i] <= 'z') }

  lemma {:induction false} UpperFixed(s: string)
    requires NoLower(s)
    ensures ToUpper(s) == s
  {
    if s != "" {
      UpperFixed(s[1..]);
    }
  }

  // An upper-case trigger with an END before its last characters is cut there.
  lemma {:induction false} CutShort(head: string, body: string, tail: string)
    requires |head| >= 14 && head[..14] == CREATE_TRIGGER && NoLower(head) && NoLower(body)
    requires tail != "" && NoLower(tail) && !IsSpace(tail[|tail| - 1])
    ensures var s := head + BEGIN + body + END + tail;
            OpensTrigger(s) && Trimmed(s) && Split(s) != [s]
  {
    hide Split, Index, ToUpper, BlockLength;
    var s := head + BEGIN + body + END + tail;
    UpperFixed(s);
    assert s[0..14] == head[..14];
    OpeningChars(s);
    EndBeforeTail(head, body, tail);
    SingleTrigger(s);
  }

  // An END before the end of an upper-case text closes the block there.
  lemma {:induction false} EndBeforeTail(head: string, body: string, tail: string)
    requires tail != ""
    requires var s := head + BEGIN + body + END + tail; ToUpper(s) == s
    ensures var s := head + BEGIN + body + END + tail; 0 <= BlockLength(s) < |s|
  {
    hide ToUpper, Index;
    var s := head + BEGIN + body + END + tail;
    assert s[|head|..|head| + 5] == BEGIN;
    IndexFirst(s, BEGIN);
    assert Occurs(s, BEGIN, |head|);
    var begin := Index(s, BEGIN);
    var w := s[begin..];
    var at := |head| + 5 + |body| - begin;
    assert w[at..at + 3] == s[begin + at..begin + at + 3] == END;
    IndexFirst(w, END);
    assert Occurs(w, END, at);
  }

  // A body that names a column such as SENDER_ID is cut inside that name.
  lemma {:induction false} SenderTriggerCutShort()
    ensures var s := "CREATE TRIGGER T " + BEGIN + " SET N = NEW.S" + END + "ER_ID; END";
            Trimmed(s) && Split(s) != [s]
  {
    hide *;
    CutShort("CREATE TRIGGER T ", " SET N = NEW.S", "ER_ID; END") by { SenderPieces(); }
  }

  lemma {:induction false} SenderPieces()
    ensures "CREATE TRIGGER T "[..14] == CREATE_TRIGGER && NoLower("CREATE TRIGGER T ")
    ensures NoLower(" SET N = NEW.S")
    ensures NoLower("ER_ID; END") && !IsSpace("ER_ID; END"[9])
  {
  }

  // ---- Conservation ----

  // What is left after dropping semicolons and white space.
  function Ink(s: string): string {
    if s == "" then ""
    else (if s[0] == ';' || IsSpace(s[0]) then "" else [s[0]]) + Ink(s[1..])
  }

  lemma {:induction false} InkConcat(a: string, b: string)
    ensures Ink(a + b) == Ink(a) + Ink(b)
  {
    if a == "" {
      assert a + b == b;
    } else {
      assert (a + b)[1..] == a[1..] + b;
      InkConcat(a[1..], b);
    }
  }

  lemma {:induction false} InkBlank(s: string)
    requires forall i :: 0 <= i < |s| ==> s[i] == ';' || IsSpace(s[i])
    ensures Ink(s) == ""
  {
    if s != "" {
      InkBlank(s[1..]);
    }
  }

  lemma {:induction false} InkTrimLeft(s: string)
    ensures Ink(TrimLeft(s, SEPARATORS)) == Ink(s)
  {
    hide TrimLeft;
    var left := TrimLeftCuts(s, SEPARATORS);
    InkBlank(left);
    InkConcat(left, TrimLeft(s, SEPARATORS));
  }

  lemma {:induction false} InkTrimSpace(s: string)
    ensures Ink(TrimSpace(s)) == Ink(s)
  {
    var left, right := TrimSpaceParts(s);
    InkBlank(left);
    InkBlank(right);
    InkConcat(left + TrimSpace(s), right);
    InkConcat(left, TrimSpace(s));
  }

  lemma {:induction false} InkNonBlanks(parts: seq<string>)
    ensures Ink(Flatten(NonBlanks(parts))) == Ink(Flatten(parts))
  {
    if parts != [] {
      var s := parts[0];
      InkNonBlanks(parts[1..]);
      InkTrimSpace(s);
      FlattenConcat(NonBlank(s), NonBlanks(parts[1..]));
      assert Flatten(NonBlank(s)) == TrimSpace(s) by {
        if TrimSpace(s) != "" {
          assert Flatten([TrimSpace(s)]) == TrimSpace(s) + Flatten([]);
        }
      }
      InkConcat(TrimSpace(s), Flatten(NonBlanks(parts[1..])));
      InkConcat(s, Flatten(parts[1..]));
    }
  }

  lemma {:induction false} InkSplitOn(s: string)
    ensures Ink(Flatten(SplitOn(s, ';'))) == Ink(s)
  {
    if s != "" {
      var rest := SplitOn(s[1..], ';');
      InkSplitOn(s[1..]);
      assert Flatten(rest) == rest[0] + Flatten(rest[1..]);
      if s[0] == ';' {
        assert ([""] + rest)[1..] == rest;
        assert Flatten([""] + rest) == "" + Flatten(rest) == Flatten(rest);
      } else {
        FlattenHead(s[0], rest);
        InkConcat([s[0]], Flatten(rest));
        InkConcat([s[0]], s[1..]);
        assert [s[0]] + s[1..] == s;
      }
      hide Ink, Flatten;
    }
  }

  lemma {:induction false} FlattenHead(c: char, parts: seq<string>)
    requires parts != []
    ensures Flatten([[c] + parts[0]] + parts[1..]) == [c] + Flatten(parts)
  {
    var more := [[c] + parts[0]] + parts[1..];
    assert more[1..] == parts[1..];
    ConcatAssoc([c], parts[0], Flatten(parts[1..]));
  }

  lemma {:induction false} InkPieces(s: string)
    ensures Ink(Flatten(Pieces(s))) == Ink(s)
  {
    InkSplitOn(s);
    InkNonBlanks(SplitOn(s, ';'));
  }

  lemma {:induction false} InkOne(text: string)
    ensures Ink(Flatten([TrimSpace(text)])) == Ink(text)
  {
    var t := TrimSpace(text);
    assert Flatten([t]) == t + Flatten([]) == t;
    InkTrimSpace(text);
  }

  // Nothing but semicolons and white space is lost, and nothing is duplicated or reordered.
  lemma {:induction false} Conservation(sql: string)
    ensures Ink(Flatten(Split(sql))) == Ink(sql)
    decreases |sql|, 1
  {
    hide *;
    var trig := Index(ToUpper(sql), CREATE_TRIGGER);
    if trig < 0 {
      SplitNoTrigger(sql);
      InkPieces(sql);
    } else {
      var before, block := sql[..trig], sql[trig..];
      SplitAtTrigger(sql, trig);
      InkPieces(before);
      BlockConservation(block);
      FlattenConcat(Pieces(before), SplitBlock(block));
      InkConcat(Flatten(Pieces(before)), Flatten(SplitBlock(block)));
      InkConcat(before, block);
      assert sql == before + block;
    }
  }

  lemma {:induction false} InkAfterBlock(block: string, n: nat)
    requires n <= |block|
    ensures Ink(AfterBlock(block, n)) == Ink(block[n..])
  {
    hide Ink, TrimLeft;
    InkTrimLeft(block[n..]);
  }

  lemma {:induction false} BlockConservation(block: string)
    ensures Ink(Flatten(SplitBlock(block))) == Ink(block)
    decreases |block|, 0
  {
    hide *;
    var n := BlockLength(block);
    if n < 0 {
      SplitOpenBlock(block);
      InkOne(block);
    } else {
      SplitClosedBlock(block, n);
      var head, rest := block[..n], AfterBlock(block, n);
      Conservation(rest);
      InkAfterBlock(block, n);
      InkOne(head);
      assert block == head + block[n..];
      InkConcat(head, block[n..]);
      var first := [TrimSpace(head)];
      FlattenConcat(first, Split(rest));
      InkConcat(Flatten(first), Flatten(Split(rest)));
    }
  }

  // Every piece is non-empty and trimmed, and only a piece that opens a trigger can hold a semicolon.
  lemma {:induction false} OutputShape(sql: string, i: nat)
    requires i < |Split(sql)|
    ensures Split(sql)[i] != "" && Trimmed(Split(sql)[i])
    ensures ';' in Split(sql)[i] ==> OpensTrigger(Split(sql)[i])
  {
    hide Split, Trimmed, OpensTrigger, BlockLength;
    OutputsSurvive(sql);
    var s := Split(sql)[i];
    if OpensTrigger(s) {
      OpeningChars(s);
    }
    if ClosedTrigger(s) {
      BlockTrimmed(s);
    }
  }
}
