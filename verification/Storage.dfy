/**
 The messages table: rows keyed by conversation and sequence number, changed only inside
 transactions. Parts and times are stored as themselves: their JSON and RFC 3339 forms are
 taken to be lossless.
 */
module Storage {
  import opened Llm
  import opened Wrappers

  datatype Row = Row(role: Role, parts: seq<Part>, completedAt: Option<nat>)

  type Table = map<(int, int), Row>

  datatype StoreError = InvalidArgument | DatabaseError

  function UserRow(message: Message): Row {
    Row(message.role, message.parts, None)
  }

  function AssistantRow(message: Message): Row {
    Row(message.role, message.parts, message.completedAt)
  }

  // ---------- the queries ----------

  function Sequences(table: Table, conversation: int): set<int> {
    set key | key in table.Keys && key.0 == conversation :: key.1
  }

  lemma HasMax(s: set<int>)
    requires s != {}
    ensures exists m :: m in s && forall x | x in s :: x <= m
  {
    assert (forall y :: y !in s) ==> s == {};
    var y: int :| y in s;
    if s != {y} {
      HasMax(s - {y});
      var m :| m in s - {y} && forall x | x in s - {y} :: x <= m;
      assert forall x | x in s :: x == y || x in s - {y};
      assert (if y <= m then m else y) in s;
    }
  }

  /** `COALESCE(MAX(sequence), 0)` */
  function MaxSequence(s: set<int>): (m: int)
    ensures s == {} ==> m == 0
    ensures s != {} ==> m in s
    ensures forall x | x in s :: x <= m
  {
    if s == {} then 0
    else
      HasMax(s);
      var m :| m in s && forall x | x in s :: x <= m;
      m
  }

  /** `ORDER BY sequence ASC` */
  function Ascending(s: set<int>): seq<int>
  {
    if s == {} then []
    else
      var m := MaxSequence(s);
      Ascending(s - {m}) + [m]
  }

  function RowMessage(row: Row): Message {
    Message(row.role, row.parts, row.completedAt)
  }

  /** The messages a query over the given sequence numbers returns. */
  function ReadRows(table: Table, conversation: int, order: seq<int>): (messages: seq<Message>)
    requires forall i | 0 <= i < |order| :: (conversation, order[i]) in table
    ensures |messages| == |order|
    ensures forall i | 0 <= i < |order| :: messages[i] == RowMessage(table[(conversation, order[i])])
  {
    seq(|order|, i requires 0 <= i < |order| => RowMessage(table[(conversation, order[i])]))
  }

  lemma AscendingMembers(s: set<int>)
    ensures forall i | 0 <= i < |Ascending(s)| :: Ascending(s)[i] in s
  {
    if s != {} {
      AscendingMembers(s - {MaxSequence(s)});
    }
  }

  lemma RowsExist(table: Table, conversation: int)
    ensures forall i | 0 <= i < |Ascending(Sequences(table, conversation))| ::
              (conversation, Ascending(Sequences(table, conversation))[i]) in table
  {
    var s := Sequences(table, conversation);
    AscendingMembers(s);
    forall i | 0 <= i < |Ascending(s)|
      ensures (conversation, Ascending(s)[i]) in table
    {
      SequencesMembers(table, conversation, Ascending(s)[i]);
    }
  }

  /** What `Messages` returns for a conversation. */
  function ReadBack(table: Table, conversation: int): seq<Message> {
    RowsExist(table, conversation);
    ReadRows(table, conversation, Ascending(Sequences(table, conversation)))
  }

  // ---------- the transactions ----------

  function InsertTurn(table: Table, conversation: int, first: int, user: Message, assistant: Message): Table {
    table[(conversation, first) := UserRow(user)][(conversation, first + 1) := AssistantRow(assistant)]
  }

  function DeleteAfter(table: Table, conversation: int, keep: int): Table {
    map key | key in table && !(key.0 == conversation && key.1 > keep) :: table[key]
  }

  // ---------- dense sequence numbers ----------

  /** The numbers 1..n. */
  function UpTo(n: nat): (s: set<int>)
    ensures forall k :: k in s <==> 1 <= k <= n
    ensures |s| == n
  {
    if n == 0 then {} else UpTo(n - 1) + {n}
  }

  predicate RowAt(table: Table, conversation: int, k: int, message: Message) {
    (conversation, k) in table && RowMessage(table[(conversation, k)]) == message
  }

  /** The conversation's rows are numbered exactly 1..n and spell out `messages`. */
  predicate Holds(table: Table, conversation: int, messages: seq<Message>) {
    && Sequences(table, conversation) == UpTo(|messages|)
    && forall i | 0 <= i < |messages| :: RowAt(table, conversation, i + 1, messages[i])
  }

  lemma {:induction false} AscendingDense(n: nat)
    ensures Ascending(UpTo(n)) == seq(n, i => i + 1)
  {
    hide MaxSequence, Ascending;
    if n == 0 {
      NothingAscending();
    } else {
      assert MaxSequence(UpTo(n)) == n;
      assert UpTo(n) - {n} == UpTo(n - 1);
      AscendingStep(UpTo(n));
      AscendingDense(n - 1);
      assert seq(n, i => i + 1) == seq(n - 1, i => i + 1) + [n];
    }
  }

  lemma NothingAscending()
    ensures Ascending(UpTo(0)) == []
  {
    assert UpTo(0) == {};
  }

  lemma AscendingStep(s: set<int>)
    requires s != {}
    ensures Ascending(s) == Ascending(s - {MaxSequence(s)}) + [MaxSequence(s)]
  {
    hide MaxSequence;
  }

  /** With dense numbers the ordered query returns precisely the messages, in order. */
  lemma HoldsReadsBack(table: Table, conversation: int, messages: seq<Message>)
    requires Holds(table, conversation, messages)
    ensures ReadBack(table, conversation) == messages
  {
    AscendingDense(|messages|);
    var order := Ascending(Sequences(table, conversation));
    assert |ReadBack(table, conversation)| == |messages|;
    forall i | 0 <= i < |messages|
      ensures ReadBack(table, conversation)[i] == messages[i]
    {
      assert order[i] == i + 1 && RowAt(table, conversation, i + 1, messages[i]);
    }
  }

  lemma SequencesMembers(table: Table, conversation: int, k: int)
    ensures k in Sequences(table, conversation) <==> (conversation, k) in table
  {
    if (conversation, k) in table {
      assert (conversation, k) in table.Keys && (conversation, k).0 == conversation && (conversation, k).1 == k;
    }
  }

  /** The count query agrees with the numbering, so the count check of a replacement is a length check. */
  lemma HoldsCount(table: Table, conversation: int, messages: seq<Message>)
    requires Holds(table, conversation, messages)
    ensures |Sequences(table, conversation)| == |messages|
    ensures MaxSequence(Sequences(table, conversation)) == |messages|
  {
    var s := Sequences(table, conversation);
    if messages != [] {
      assert |messages| in s;
    }
  }

  /** Neither insertion of a turn can meet an existing row, whatever the numbering: the uniqueness constraint never fires. */
  lemma InsertNeverCollides(table: Table, conversation: int, keep: int)
    ensures var m := MaxSequence(Sequences(table, conversation));
            (conversation, m + 1) !in table && (conversation, m + 2) !in table
    ensures var rest := DeleteAfter(table, conversation, keep);
            (conversation, keep + 1) !in rest && (conversation, keep + 2) !in rest
  {
    var m := MaxSequence(Sequences(table, conversation));
    SequencesMembers(table, conversation, m + 1);
    SequencesMembers(table, conversation, m + 2);
  }

  /** Deleting `sequence > keep` keeps exactly the first `keep` messages. */
  lemma DeleteKeepsPrefix(table: Table, conversation: int, messages: seq<Message>, keep: nat)
    requires Holds(table, conversation, messages) && keep <= |messages|
    ensures Holds(DeleteAfter(table, conversation, keep), conversation, messages[..keep])
  {
    var rest := DeleteAfter(table, conversation, keep);
    forall k
      ensures k in Sequences(rest, conversation) <==> 1 <= k <= keep
    {
      SequencesMembers(table, conversation, k);
      SequencesMembers(rest, conversation, k);
    }
    assert Sequences(rest, conversation) == UpTo(keep);
    forall i | 0 <= i < keep
      ensures RowAt(rest, conversation, i + 1, messages[..keep][i])
    {
      assert RowAt(table, conversation, i + 1, messages[i]);
    }
  }

  lemma InsertNumbers(table: Table, conversation: int, n: nat, user: Message, assistant: Message)
    requires Sequences(table, conversation) == UpTo(n)
    ensures Sequences(InsertTurn(table, conversation, n + 1, user, assistant), conversation) == UpTo(n + 2)
  {
    var next := InsertTurn(table, conversation, n + 1, user, assistant);
    forall k
      ensures k in Sequences(next, conversation) <==> k in UpTo(n + 2)
    {
      SequencesMembers(table, conversation, k);
      SequencesMembers(next, conversation, k);
    }
  }

  lemma InsertRow(table: Table, conversation: int, n: nat, user: Message, assistant: Message, i: nat, message: Message)
    requires user.completedAt == None
    requires if i < n then RowAt(table, conversation, i + 1, message) else message == if i == n then user else assistant
    requires i < n + 2
    ensures RowAt(InsertTurn(table, conversation, n + 1, user, assistant), conversation, i + 1, message)
  {
  }

  /** Inserting a turn after the last message appends its two messages. */
  lemma InsertAppends(table: Table, conversation: int, messages: seq<Message>, user: Message, assistant: Message)
    requires Holds(table, conversation, messages) && user.completedAt == None
    ensures Holds(InsertTurn(table, conversation, |messages| + 1, user, assistant), conversation, messages + [user, assistant])
  {
    var n := |messages|;
    InsertNumbers(table, conversation, n, user, assistant);
    forall i | 0 <= i < n + 2
      ensures RowAt(InsertTurn(table, conversation, n + 1, user, assistant), conversation, i + 1, (messages + [user, assistant])[i])
    {
      InsertRow(table, conversation, n, user, assistant, i, (messages + [user, assistant])[i]);
    }
  }

  /** Other conversations never notice. */
  lemma OthersUntouched(table: Table, conversation: int, keep: int, first: int, user: Message, assistant: Message, other: int)
    requires other != conversation
    ensures ReadBack(InsertTurn(table, conversation, first, user, assistant), other) == ReadBack(table, other)
    ensures ReadBack(DeleteAfter(table, conversation, keep), other) == ReadBack(table, other)
  {
    var inserted := InsertTurn(table, conversation, first, user, assistant);
    var deleted := DeleteAfter(table, conversation, keep);
    forall k
      ensures k in Sequences(table, other) <==> k in Sequences(inserted, other)
      ensures k in Sequences(table, other) <==> k in Sequences(deleted, other)
    {
      SequencesMembers(table, other, k);
      SequencesMembers(inserted, other, k);
      SequencesMembers(deleted, other, k);
    }
    assert Sequences(inserted, other) == Sequences(table, other);
    assert Sequences(deleted, other) == Sequences(table, other);
    RowsExist(table, other);
  }

  /** The result of a successful append, or of a successful replacement of everything after `keep`. */
  function Committed(table: Table, conversation: int, replace: Option<nat>, user: Message, assistant: Message): Table {
    match replace
    case None => InsertTurn(table, conversation, MaxSequence(Sequences(table, conversation)) + 1, user, assistant)
    case Some(keep) => InsertTurn(DeleteAfter(table, conversation, keep), conversation, keep + 1, user, assistant)
  }

  /** Both transactions turn a table that holds a transcript into one that holds the next transcript. */
  lemma CommittedHolds(table: Table, conversation: int, messages: seq<Message>, replace: Option<nat>, user: Message, assistant: Message)
    requires Holds(table, conversation, messages) && user.completedAt == None
    requires replace.Some? ==> replace.value <= |messages|
    ensures Holds(Committed(table, conversation, replace, user, assistant), conversation,
                  (if replace.Some? then messages[..replace.value] else messages) + [user, assistant])
  {
    hide Holds, InsertTurn, DeleteAfter, Sequences, MaxSequence;
    match replace
    case None =>
      HoldsCount(table, conversation, messages);
      InsertAppends(table, conversation, messages, user, assistant);
    case Some(keep) =>
      DeleteKeepsPrefix(table, conversation, messages, keep);
      InsertAppends(DeleteAfter(table, conversation, keep), conversation, messages[..keep], user, assistant);
  }

  /**
   The database. `fault` numbers the statement of the transaction that fails, if any; a fault
   number past the last statement is a fault that never happens.
   */
  class SQLite {
    var table: Table

    /** Here `fault` numbers the query, the reading of each row, and the end of the rows. */
    method Messages(conversation: int, fault: Option<nat>) returns (r: Result<seq<Message>, StoreError>)
      ensures r == if conversation <= 0 then Failure(InvalidArgument)
                   else if fault.Some? && fault.value <= |ReadBack(table, conversation)| + 1 then Failure(DatabaseError)
                   else Success(ReadBack(table, conversation))
    {
      if conversation <= 0 {
        return Failure(InvalidArgument);
      }
      if fault == Some(0) {
        return Failure(DatabaseError);
      }
      RowsExist(table, conversation);
      var rows := Ascending(Sequences(table, conversation));
      var messages: seq<Message> := [];
      for i := 0 to |rows|
        invariant |messages| == i && (fault.Some? ==> fault.value > i)
        invariant forall j | 0 <= j < i :: messages[j] == RowMessage(table[(conversation, rows[j])])
      {
        if fault == Some(i + 1) {
          return Failure(DatabaseError);
        }
        var row := table[(conversation, rows[i])];
        messages := messages + [Message(row.role, row.parts, row.completedAt)];
      }
      assert messages == ReadBack(table, conversation);
      if fault == Some(|messages| + 1) {
        return Failure(DatabaseError);
      }
      return Success(messages);
    }

    method AppendTurn(conversation: int, user: Message, assistant: Message, fault: Option<nat>) returns (r: Result<(), StoreError>)
      modifies this
      ensures r.Success? <==> conversation > 0 && user.role == User && assistant.role == Assistant && !(fault.Some? && fault.value < 5)
      ensures r.Success? ==> table == Committed(old(table), conversation, None, user, assistant)
      ensures r.Failure? ==> table == old(table)
      ensures r.Failure? ==> (r.error == InvalidArgument <==> conversation <= 0 || user.role != User || assistant.role != Assistant)
    {
      if conversation <= 0 || user.role != User || assistant.role != Assistant {
        return Failure(InvalidArgument);
      }
      if fault == Some(0) {
        return Failure(DatabaseError);
      }
      var tx := table;
      if fault == Some(1) {
        return Failure(DatabaseError);
      }
      var maxSequence := MaxSequence(Sequences(tx, conversation));
      InsertNeverCollides(tx, conversation, 0);
      var inserted := InsertTurnAtSequence(tx, conversation, maxSequence + 1, user, assistant, fault, 2);
      if inserted.Failure? {
        return Failure(inserted.error);
      }
      if fault == Some(4) {
        return Failure(DatabaseError);
      }
      table := inserted.value;
      return Success(());
    }

    method ReplaceTailAndAppendTurn(conversation: int, keep: int, user: Message, assistant: Message, fault: Option<nat>)
      returns (r: Result<(), StoreError>)
      modifies this
      ensures r.Success? <==> conversation > 0 && user.role == User && assistant.role == Assistant
                              && 0 <= keep <= |Sequences(old(table), conversation)| && !(fault.Some? && fault.value < 6)
      ensures r.Success? ==> table == Committed(old(table), conversation, Some(keep), user, assistant)
      ensures r.Failure? ==> table == old(table)
    {
      if conversation <= 0 || user.role != User || assistant.role != Assistant {
        return Failure(InvalidArgument);
      }
      if keep < 0 {
        return Failure(InvalidArgument);
      }
      if fault == Some(0) {
        return Failure(DatabaseError);
      }
      var tx := table;
      if fault == Some(1) {
        return Failure(DatabaseError);
      }
      var messageCount := |Sequences(tx, conversation)|;
      if keep > messageCount {
        return Failure(InvalidArgument);
      }
      if fault == Some(2) {
        return Failure(DatabaseError);
      }
      tx := DeleteAfter(tx, conversation, keep);
      InsertNeverCollides(table, conversation, keep);
      var inserted := InsertTurnAtSequence(tx, conversation, keep + 1, user, assistant, fault, 3);
      if inserted.Failure? {
        return Failure(inserted.error);
      }
      if fault == Some(5) {
        return Failure(DatabaseError);
      }
      table := inserted.value;
      return Success(());
    }

    /** Two guarded insertions; the uniqueness constraint on (conversation, sequence) is checked by each. */
    static method InsertTurnAtSequence(tx: Table, conversation: int, first: int, user: Message, assistant: Message,
                                       fault: Option<nat>, statement: nat)
      returns (r: Result<Table, StoreError>)
      ensures r.Success? <==> (conversation, first) !in tx && (conversation, first + 1) !in tx
                              && fault != Some(statement) && fault != Some(statement + 1)
      ensures r.Success? ==> r.value == InsertTurn(tx, conversation, first, user, assistant)
      ensures (conversation, first) !in tx && (conversation, first + 1) !in tx && r.Failure? ==> r.error == DatabaseError
    {
      if (conversation, first) in tx {
        return Failure(InvalidArgument);
      }
      if fault == Some(statement) {
        return Failure(DatabaseError);
      }
      var next := tx[(conversation, first) := UserRow(user)];
      if (conversation, first + 1) in next {
        return Failure(InvalidArgument);
      }
      if fault == Some(statement + 1) {
        return Failure(DatabaseError);
      }
      return Success(next[(conversation, first + 1) := AssistantRow(assistant)]);
    }
  }
}
