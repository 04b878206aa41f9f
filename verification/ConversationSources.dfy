/** What a database filled by events guarantees the conversation list. */
module ConversationSources {
  import opened CacheTables
  import opened IngestRuns
  import A = Aliases
  import C = Conversations
  import L = ConversationLoads
  import U = ConversationUnread

  ghost predicate ChatsProper(chats: map<string, ChatRow>) {
    "" !in chats && forall j :: j in chats ==> chats[j].unread >= 0
  }

  lemma {:induction false} FoldKeepsChatsProper(chats: map<string, ChatRow>, log: Log)
    requires ChatsProper(chats) && ProperWrites(log)
    ensures ChatsProper(Fold(chats, log, ApplyChats))
    decreases |log|
  {
    if log != [] {
      assert log[0] in log;
      FoldKeepsChatsProper(ApplyChats(chats, log[0].write, log[0].now), log[1..]);
    }
  }

  lemma ChatsStayProper(db: Db, events: seq<Timed>, hash: string -> string)
    requires ChatsProper(db.chats)
    ensures ChatsProper(Run(db, events, hash).chats)
  {
    RunIsReplay(db, events, hash);
    RunProper(db.messages, events);
    FoldKeepsChatsProper(db.chats, RunLog(db.messages, events));
  }

  lemma TableColumnsApart(table: map<Pair, int>, aliases: seq<A.Alias>)
    requires ColumnsApart(table) && forall a :: a in aliases <==> a in table
    ensures A.ColumnsApart(aliases) && forall a :: a in aliases ==> A.Usable(a)
  {
    forall a, b | a in aliases && b in aliases ensures a.0 != b.1 && A.Usable(a) {
      LidIsNotPhone(a.0);
    }
  }

  /** After any run, what the conversation list asks of its rows and aliases holds. */
  lemma RunsFeedTheList(db: Db, events: seq<Timed>, hash: string -> string, rows: seq<C.Row>, q: L.Source,
                        aliases: seq<A.Alias>)
    requires ChatsProper(db.chats) && ColumnsApart(db.aliases) && q.db == Run(db, events, hash)
    requires L.IsLoaded(rows, q) && forall a :: a in aliases <==> a in q.db.aliases
    ensures C.Named(rows) && U.UnreadCounts(q.db) && A.ColumnsApart(aliases)
    ensures forall a :: a in aliases ==> A.Usable(a)
  {
    ChatsStayProper(db, events, hash);
    AliasColumnsStayApart(db, events, hash);
    TableColumnsApart(q.db.aliases, aliases);
  }
}
