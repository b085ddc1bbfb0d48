/** The tables that migrations 0016 and 0019 read and write, and how a row finds its owner. */
module TagSchema {
  import opened Wrappers
  import opened Strings

  /** Both migrations spell out this brief. */
  const DEFAULT_BRIEF := "Default memory boundary automatically applied to every target."

  /** A value inside a JSON object column; only the flag written by the migration is interpreted. */
  datatype Json = True | Other(text: string)

  type Meta = map<string, Json>

  datatype TagRow = TagRow(
    owner: Option<string>, tagId: string, brief: string, visibility: string,
    isIsolated: bool, isSystem: bool, isHidden: bool,
    meta: Option<Meta>, createdAt: Option<int>, updatedAt: Option<int>)

  datatype User = User(id: string, username: string)

  /** A row of a binding or link table: the resource that holds the tag, and the tag. */
  datatype Link = Link(holder: string, tag: string)

  /** A JSON list column as the driver may deliver it: absent, decoded, still text, or something else.
      Items are given as `str(item)` makes them. */
  datatype JsonList = Null | List(items: seq<string>) | Text(parsed: Option<seq<string>>) | NotAList

  /** A session state or a message. */
  datatype Scoped = Scoped(cocoon: Option<string>, group: Option<string>, tags: JsonList)

  datatype Memory = Memory(owner: Option<string>, cocoon: Option<string>, group: Option<string>, tags: JsonList)

  datatype Database = Database(
    users: seq<User>,
    cocoonOwner: map<string, string>,
    groupOwner: map<string, string>,
    registry: map<string, TagRow>,
    cocoonBindings: map<string, Link>,
    groupBindings: map<string, Link>,
    sessions: map<string, Scoped>,
    messages: map<string, Scoped>,
    memories: map<string, Memory>,
    messageTags: map<string, Link>,
    memoryTags: map<string, Link>,
    visibility: set<string>)

  predicate IsBlank(s: string) {
    forall i | 0 <= i < |s| :: IsSpace(s[i])
  }

  function DropBlank(items: seq<string>): seq<string> {
    if items == [] then []
    else if IsBlank(items[0]) then DropBlank(items[1..])
    else [items[0]] + DropBlank(items[1..])
  }

  /** `_normalize_json_list` */
  function Items(value: JsonList): seq<string> {
    match value
    case Null => []
    case List(items) => DropBlank(items)
    case Text(parsed) => if parsed.Some? then DropBlank(parsed.value) else []
    case NotAList => []
  }

  /** Python's truth value of an optional string. */
  predicate Truthy(s: Option<string>) {
    s.Some? && s.value != ""
  }

  /** Python's `a or b`, where every use of the result only asks whether it is truthy. */
  function Or(a: Option<string>, b: Option<string>): Option<string> {
    if Truthy(a) then a else if Truthy(b) then b else None
  }

  /** `user_by_username[name]`: with repeated names the last row wins. */
  function IdOfUsername(users: seq<User>, name: string): Option<string> {
    if users == [] then None
    else
      var last := users[|users| - 1];
      if last.username == name then Some(last.id) else IdOfUsername(users[..|users| - 1], name)
  }

  function Fallback(db: Database): Option<string> {
    Or(IdOfUsername(db.users, "user1"),
       Or(IdOfUsername(db.users, "admin"), if db.users == [] then None else Some(db.users[0].id)))
  }

  /** The owner found through a nullable reference to an owned resource. */
  function OwnerVia(owners: map<string, string>, ref: Option<string>): Option<string> {
    if Truthy(ref) then Lookup(owners, ref.value) else None
  }

  function ScopedOwner(db: Database, row: Scoped): Option<string> {
    Or(OwnerVia(db.cocoonOwner, row.cocoon), Or(OwnerVia(db.groupOwner, row.group), Fallback(db)))
  }

  function MemoryOwner(db: Database, row: Memory): Option<string> {
    Or(row.owner, Or(OwnerVia(db.cocoonOwner, row.cocoon), Or(OwnerVia(db.groupOwner, row.group), Fallback(db))))
  }

  /** The owner of a link row whose holders' owners are known. */
  function LinkOwner(db: Database, owners: map<string, Option<string>>, row: Link): Option<string> {
    Or(if row.holder in owners then owners[row.holder] else None, Fallback(db))
  }

  function Owned(owners: map<string, string>): map<string, Option<string>> {
    map id | id in owners :: Some(owners[id])
  }

  function MessageOwners(db: Database): map<string, Option<string>> {
    map id | id in db.messages :: ScopedOwner(db, db.messages[id])
  }

  function MemoryOwners(db: Database): map<string, Option<string>> {
    map id | id in db.memories :: MemoryOwner(db, db.memories[id])
  }

  /** Everywhere a tag id can be written: four link tables and three JSON columns. */
  datatype Place =
    | CocoonLink(id: string) | GroupLink(id: string) | MessageLink(id: string) | MemoryLink(id: string)
    | SessionList(id: string) | MessageList(id: string) | MemoryList(id: string)

  predicate Exists(db: Database, p: Place) {
    match p
    case CocoonLink(id) => id in db.cocoonBindings
    case GroupLink(id) => id in db.groupBindings
    case MessageLink(id) => id in db.messageTags
    case MemoryLink(id) => id in db.memoryTags
    case SessionList(id) => id in db.sessions
    case MessageList(id) => id in db.messages
    case MemoryList(id) => id in db.memories
  }

  /** The tag ids written at a place, in order. */
  function TagsAt(db: Database, p: Place): seq<string>
    requires Exists(db, p)
  {
    match p
    case CocoonLink(id) => [db.cocoonBindings[id].tag]
    case GroupLink(id) => [db.groupBindings[id].tag]
    case MessageLink(id) => [db.messageTags[id].tag]
    case MemoryLink(id) => [db.memoryTags[id].tag]
    case SessionList(id) => Items(db.sessions[id].tags)
    case MessageList(id) => Items(db.messages[id].tags)
    case MemoryList(id) => Items(db.memories[id].tags)
  }

  /** The user the migration resolves a place to; `None` when it resolves to nobody. */
  function OwnerAt(db: Database, p: Place): Option<string>
    requires Exists(db, p)
  {
    match p
    case CocoonLink(id) => LinkOwner(db, Owned(db.cocoonOwner), db.cocoonBindings[id])
    case GroupLink(id) => LinkOwner(db, Owned(db.groupOwner), db.groupBindings[id])
    case MessageLink(id) => LinkOwner(db, MessageOwners(db), db.messageTags[id])
    case MemoryLink(id) => LinkOwner(db, MemoryOwners(db), db.memoryTags[id])
    case SessionList(id) => ScopedOwner(db, db.sessions[id])
    case MessageList(id) => ScopedOwner(db, db.messages[id])
    case MemoryList(id) => MemoryOwner(db, db.memories[id])
  }

  predicate Carries(db: Database, p: Place, tag: string) {
    Exists(db, p) && tag in TagsAt(db, p)
  }

  /** An id the database does not mention anywhere. */
  ghost predicate Fresh(db: Database, id: string) {
    && !IsBlank(id)
    && id !in db.registry
    && forall p :: !Carries(db, p, id)
  }

  /** The generated ids: never repeated, and unlike any id the database already mentions. */
  ghost predicate FreshSupply(newId: nat -> string, db: Database) {
    && (forall n :: Fresh(db, newId(n)))
    && (forall m, n :: newId(m) == newId(n) ==> m == n)
  }
}
