/** The packets of UserEvent.fbs as schema data: for every table the fields in the order in which its
    generated Verify checks them, and the union of events inside DatabasePacket. */
module UserEvents {
  import opened Bytes
  import opened Table
  import opened Schema

  function Int8(id: nat): FieldDef { FieldDef(id, TScalar(1, 0)) }

  /** uint32_t and float, the latter as its bits. */
  function Int32(id: nat): FieldDef { FieldDef(id, TScalar(4, 0)) }

  function Int64(id: nat): FieldDef { FieldDef(id, TScalar(8, 0)) }

  function Text(id: nat): FieldDef { FieldDef(id, TString) }

  function One(id: nat, table: nat): FieldDef { FieldDef(id, TTable(table)) }

  function Many(id: nat, table: nat): FieldDef { FieldDef(id, TTableVector(table)) }

  const S2C_LOGIN: nat := 0
  const C2S_LOGIN: nat := 1
  const S2C_LOGOUT: nat := 2
  const C2S_LOGOUT: nat := 3
  const S2C_CREATE_ACCOUNT: nat := 4
  const C2S_CREATE_ACCOUNT: nat := 5
  const ITEM_DATA: nat := 6
  const S2C_ITEM_DATA: nat := 7
  const C2S_ITEM_DATA: nat := 8
  const SHOP_DATA: nat := 9
  const S2C_SHOP_LIST: nat := 10
  const C2S_SHOP_LIST: nat := 11
  const S2C_SHOP_ITEMS: nat := 12
  const C2S_SHOP_ITEMS: nat := 13
  const S2C_SHOP_TRANSACTION: nat := 14
  const C2S_SHOP_TRANSACTION: nat := 15
  const S2C_PLAYER_DATA: nat := 16
  const C2S_PLAYER_DATA: nat := 17
  const MONSTER_DATA: nat := 18
  const S2C_MONSTER_DATA: nat := 19
  const C2S_MONSTER_DATA: nat := 20
  const CHAT_DATA: nat := 21
  const S2C_PLAYER_CHAT: nat := 22
  const C2S_PLAYER_CHAT: nat := 23
  const GAME_SERVER_DATA: nat := 24
  const C2S_CREATE_GAME_SERVER: nat := 25
  const S2C_CREATE_GAME_SERVER: nat := 26
  const C2S_GAME_SERVER_LIST: nat := 27
  const S2C_GAME_SERVER_LIST: nat := 28
  const C2S_JOIN_GAME_SERVER: nat := 29
  const S2C_JOIN_GAME_SERVER: nat := 30
  const C2S_CLOSE_GAME_SERVER: nat := 31
  const S2C_CLOSE_GAME_SERVER: nat := 32
  const C2S_SAVE_PLAYER_DATA: nat := 33
  const S2C_SAVE_PLAYER_DATA: nat := 34
  const DATABASE_PACKET: nat := 35

  const TABLES: nat := 36

  /** The table of each event type; EventType_NONE and unknown types have none. */
  function EventTables(): map<nat, nat> {
    map[
      1 := S2C_LOGIN,
      2 := C2S_LOGIN,
      3 := S2C_LOGOUT,
      4 := C2S_LOGOUT,
      5 := S2C_CREATE_ACCOUNT,
      6 := C2S_CREATE_ACCOUNT,
      7 := S2C_ITEM_DATA,
      8 := C2S_ITEM_DATA,
      9 := S2C_SHOP_LIST,
      10 := C2S_SHOP_LIST,
      11 := S2C_SHOP_ITEMS,
      12 := C2S_SHOP_ITEMS,
      13 := S2C_SHOP_TRANSACTION,
      14 := C2S_SHOP_TRANSACTION,
      15 := S2C_PLAYER_DATA,
      16 := C2S_PLAYER_DATA,
      17 := S2C_MONSTER_DATA,
      18 := C2S_MONSTER_DATA,
      19 := S2C_PLAYER_CHAT,
      20 := C2S_PLAYER_CHAT,
      21 := S2C_CREATE_GAME_SERVER,
      22 := C2S_CREATE_GAME_SERVER,
      23 := S2C_GAME_SERVER_LIST,
      24 := C2S_GAME_SERVER_LIST,
      25 := S2C_JOIN_GAME_SERVER,
      26 := C2S_JOIN_GAME_SERVER,
      27 := S2C_CLOSE_GAME_SERVER,
      28 := C2S_CLOSE_GAME_SERVER,
      29 := S2C_SAVE_PLAYER_DATA,
      30 := C2S_SAVE_PLAYER_DATA
    ]
  }

  /** Logins, logouts and accounts. */
  function AccountFields(table: nat): seq<FieldDef> {
    if table == S2C_LOGIN then
      [Int8(4), Int32(6), Text(8), Text(10), Int32(12)]
    else if table == C2S_LOGIN then
      [Text(4), Text(6)]
    else if table == S2C_LOGOUT then
      [Int8(4), Text(6)]
    else if table == C2S_LOGOUT then
      [Int32(4)]
    else if table == S2C_CREATE_ACCOUNT then
      [Int8(4), Int32(6), Text(8)]
    else if table == C2S_CREATE_ACCOUNT then
      [Text(4), Text(6), Text(8)]
    else []
  }

  /** Items and shops. */
  function ShopFields(table: nat): seq<FieldDef> {
    if table == ITEM_DATA then
      [Int32(4), Text(6), Int32(8), Int32(10), Int32(12), Int32(14), Int32(16), Int32(18), Int32(20), Text(22)]
    else if table == S2C_ITEM_DATA then
      [Int8(4), Int32(6), Many(8, ITEM_DATA), Int32(10)]
    else if table == C2S_ITEM_DATA then
      [Int32(4), Int32(6), Int32(8), Int32(10)]
    else if table == SHOP_DATA then
      [Int32(4), Text(6), Int32(8), Int32(10), Int32(12), Int32(14)]
    else if table == S2C_SHOP_LIST then
      [Int8(4), Many(6, SHOP_DATA)]
    else []
  }

  /** Shop contents and transactions. */
  function TradeFields(table: nat): seq<FieldDef> {
    if table == C2S_SHOP_LIST then
      [Int32(4), Int32(6)]
    else if table == S2C_SHOP_ITEMS then
      [Int8(4), Int32(6), Many(8, ITEM_DATA)]
    else if table == C2S_SHOP_ITEMS then
      [Int32(4)]
    else if table == S2C_SHOP_TRANSACTION then
      [Int8(4), Text(6), Int32(8)]
    else if table == C2S_SHOP_TRANSACTION then
      [Int32(4), Int32(6), Int32(8), Int32(10), Int32(12)]
    else []
  }

  /** Players and monsters. */
  function PlayerFields(table: nat): seq<FieldDef> {
    if table == S2C_PLAYER_DATA then
      [Int8(4), Int32(6), Text(8), Text(10), Int32(12), Int32(14), Int32(16), Int32(18), Int32(20), Int32(22), Int32(24), Int32(26), Int32(28), Int32(30)]
    else if table == C2S_PLAYER_DATA then
      [Int32(4), Int32(6), Int32(8), Int32(10), Int32(12), Int32(14), Int32(16), Int32(18)]
    else if table == MONSTER_DATA then
      [Int32(4), Text(6), Int32(8), Int32(10), Int32(12), Int32(14), Int32(16), Int32(18)]
    else if table == S2C_MONSTER_DATA then
      [Int8(4), Many(6, MONSTER_DATA)]
    else if table == C2S_MONSTER_DATA then
      [Int32(4), Int32(6), One(8, MONSTER_DATA)]
    else []
  }

  /** Chats and the creation of game servers. */
  function ChatFields(table: nat): seq<FieldDef> {
    if table == CHAT_DATA then
      [Int32(4), Int32(6), Text(8), Text(10), Int32(12), Int64(14)]
    else if table == S2C_PLAYER_CHAT then
      [Int8(4), Many(6, CHAT_DATA)]
    else if table == C2S_PLAYER_CHAT then
      [Int32(4), Int32(6), Int32(8), Text(10), Int32(12)]
    else if table == GAME_SERVER_DATA then
      [Int32(4), Text(6), Text(8), Int32(10), Int32(12), Text(14), Int32(16), Int32(18), Int8(20)]
    else if table == C2S_CREATE_GAME_SERVER then
      [Int32(4), Text(6), Text(8), Text(10), Int32(12), Int32(14)]
    else []
  }

  /** Lists of game servers and joining them. */
  function ServerFields(table: nat): seq<FieldDef> {
    if table == S2C_CREATE_GAME_SERVER then
      [Int8(4), Int32(6), Text(8)]
    else if table == C2S_GAME_SERVER_LIST then
      [Int32(4)]
    else if table == S2C_GAME_SERVER_LIST then
      [Int8(4), Many(6, GAME_SERVER_DATA)]
    else if table == C2S_JOIN_GAME_SERVER then
      [Int32(4), Int32(6), Text(8)]
    else if table == S2C_JOIN_GAME_SERVER then
      [Int8(4), Text(6), Int32(8), Text(10)]
    else []
  }

  /** Closing, saving and the packet around all events. */
  function OtherFields(table: nat): seq<FieldDef> {
    if table == C2S_CLOSE_GAME_SERVER then
      [Int32(4), Int32(6)]
    else if table == S2C_CLOSE_GAME_SERVER then
      [Int8(4), Text(6)]
    else if table == C2S_SAVE_PLAYER_DATA then
      [Int32(4), Int32(6), Int32(8), Int32(10), Int32(12), Int32(14), Int32(16), Int32(18)]
    else if table == S2C_SAVE_PLAYER_DATA then
      [Int8(4), Text(6)]
    else if table == DATABASE_PACKET then
      [Int8(4), FieldDef(6, TUnion(4, EventTables())), Int32(8)]
    else []
  }

  /** The fields of a table. */
  function Fields(table: nat): seq<FieldDef> {
    if table < ITEM_DATA then AccountFields(table)
    else if table < C2S_SHOP_LIST then ShopFields(table)
    else if table < S2C_PLAYER_DATA then TradeFields(table)
    else if table < CHAT_DATA then PlayerFields(table)
    else if table < S2C_CREATE_GAME_SERVER then ChatFields(table)
    else if table < C2S_CLOSE_GAME_SERVER then ServerFields(table)
    else OtherFields(table)
  }

  function AllTables(): (sch: Schema)
    ensures |sch| == TABLES
  {
    seq(TABLES, t requires 0 <= t < TABLES => Fields(t))
  }

  /** How deeply tables nest below a table, itself included. */
  function Level(table: nat): (l: nat)
    ensures 1 <= l <= 3
  {
    if table == DATABASE_PACKET then 3
    else if table in [S2C_ITEM_DATA, S2C_SHOP_LIST, S2C_SHOP_ITEMS, S2C_MONSTER_DATA, C2S_MONSTER_DATA,
                      S2C_PLAYER_CHAT, S2C_GAME_SERVER_LIST] then 2
    else 1
  }

  const MOST_FIELDS: nat := 14

  /** Field k is one the generated code can have: ids in the order of the fields, a table of a lower level,
      and a union right behind its type field, in the packet only. */
  predicate Fits(table: nat, fs: seq<FieldDef>, k: nat)
    requires k < |fs|
  {
    && fs[k].id == 4 + 2 * k && |fs| <= MOST_FIELDS
    && match fs[k].ty
       case TScalar(size, def) => (size == 1 || size == 4 || size == 8) && def == 0
       case TString => true
       case TTable(t) => t < TABLES && Level(t) < Level(table)
       case TTableVector(t) => t < TABLES && Level(t) < Level(table)
       case TUnion(typeField, members) =>
         && 0 < k && fs[k - 1] == FieldDef(typeField, TScalar(1, 0))
         && members == EventTables() && table == DATABASE_PACKET
       case _ => false
  }

  lemma AccountFit(table: nat, k: nat)
    requires k < |AccountFields(table)|
    ensures Fits(table, AccountFields(table), k)
  {
    hide EventTables;
  }

  lemma ShopFit(table: nat, k: nat)
    requires k < |ShopFields(table)|
    ensures Fits(table, ShopFields(table), k)
  {
    hide EventTables;
  }

  lemma TradeFit(table: nat, k: nat)
    requires k < |TradeFields(table)|
    ensures Fits(table, TradeFields(table), k)
  {
    hide EventTables;
  }

  lemma PlayerFit(table: nat, k: nat)
    requires k < |PlayerFields(table)|
    ensures Fits(table, PlayerFields(table), k)
  {
    hide EventTables;
  }

  lemma ChatFit(table: nat, k: nat)
    requires k < |ChatFields(table)|
    ensures Fits(table, ChatFields(table), k)
  {
    hide EventTables;
  }

  lemma ServerFit(table: nat, k: nat)
    requires k < |ServerFields(table)|
    ensures Fits(table, ServerFields(table), k)
  {
    hide EventTables;
  }

  lemma OtherFit(table: nat, k: nat)
    requires k < |OtherFields(table)|
    ensures Fits(table, OtherFields(table), k)
  {
    hide EventTables;
  }

  lemma FieldsFit(table: nat, k: nat)
    requires k < |Fields(table)|
    ensures Fits(table, Fields(table), k)
  {
    hide EventTables, Fits, AccountFields, ShopFields, TradeFields, PlayerFields, ChatFields, ServerFields, OtherFields;
    if table < ITEM_DATA { AccountFit(table, k); }
    else if table < C2S_SHOP_LIST { ShopFit(table, k); }
    else if table < S2C_PLAYER_DATA { TradeFit(table, k); }
    else if table < CHAT_DATA { PlayerFit(table, k); }
    else if table < S2C_CREATE_GAME_SERVER { ChatFit(table, k); }
    else if table < C2S_CLOSE_GAME_SERVER { ServerFit(table, k); }
    else { OtherFit(table, k); }
  }

  /** Every event has a type of its own; none of them is the packet. */
  lemma EventTablesExist(e: nat)
    requires e in EventTables()
    ensures 1 <= e <= 30 && EventTables()[e] < TABLES && Level(EventTables()[e]) < Level(DATABASE_PACKET)
    ensures forall d :: d in EventTables() && EventTables()[d] == EventTables()[e] ==> d == e
  {
  }

  lemma EventsOk()
    ensures SchemaOk(AllTables())
  {
    hide Fields, EventTables, Fits;
    forall t, k | 0 <= t < |AllTables()| && 0 <= k < |AllTables()[t]|
      ensures IsFieldId(AllTables()[t][k].id) && TypeOk(AllTables(), t, k)
    {
      FieldsFit(t, k);
      FitIsOk(t, k);
    }
  }

  lemma FitIsOk(t: nat, k: nat)
    requires t < TABLES && k < |Fields(t)| && Fits(t, Fields(t), k)
    ensures IsFieldId(AllTables()[t][k].id) && TypeOk(AllTables(), t, k)
  {
    hide Fields, EventTables, Level;
    Widths();
    if Fields(t)[k].ty.TUnion? {
      forall e | e in EventTables() ensures EventTables()[e] < TABLES { EventTablesExist(e); }
    }
  }

  /** The schema of all packets. */
  function Events(): (sch: Schema)
    ensures |sch| == TABLES && SchemaOk(sch)
  {
    EventsOk();
    AllTables()
  }
}
