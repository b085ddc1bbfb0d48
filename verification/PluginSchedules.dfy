/** Migration 0026: the schedules of plugin events move from the plugin to its owner, and back. */
module PluginSchedules {
  import opened Wrappers
  import opened FreshIds

  datatype Schedule = Schedule(mode: string, interval: Option<int>, cron: Option<string>)

  /** The columns' defaults. */
  const MANUAL := Schedule("manual", None, None)

  /** A row of `plugin_event_configs` with its schedule columns. */
  datatype EventConfig = EventConfig(plugin: string, event: string, schedule: Schedule)

  /** A row of `plugin_event_configs` without them. */
  datatype Bare = Bare(plugin: string, event: string)

  datatype UserConfig = UserConfig(plugin: string, user: string, event: string, schedule: Schedule)

  /** The `owner_user_id` of each plugin definition, by plugin. */
  type Owners = map<string, Option<string>>

  /** `mode or "manual"` */
  function Stated(s: Schedule): Schedule {
    s.(mode := if s.mode == "" then "manual" else s.mode)
  }

  /** The joined row of this configuration passes both tests of the upgrade's loop. */
  predicate Moves(owners: Owners, c: EventConfig) {
    && c.plugin in owners && owners[c.plugin].Some? && owners[c.plugin].value != ""
    && Stated(c.schedule).mode != "manual"
  }

  function RowOf(owners: Owners, c: EventConfig): UserConfig
    requires Moves(owners, c)
  {
    UserConfig(c.plugin, owners[c.plugin].value, c.event, Stated(c.schedule))
  }

  function Drop(configs: map<string, EventConfig>): map<string, Bare> {
    map id | id in configs :: Bare(configs[id].plugin, configs[id].event)
  }

  function AddColumns(bare: map<string, Bare>): map<string, EventConfig> {
    map id | id in bare :: EventConfig(bare[id].plugin, bare[id].event, MANUAL)
  }

  predicate SameEvent(c: EventConfig, d: EventConfig) {
    c.plugin == d.plugin && c.event == d.event
  }

  predicate SameUserEvent(r: UserConfig, s: UserConfig) {
    r.plugin == s.plugin && r.user == s.user && r.event == s.event
  }

  /** The schema's unique constraint on (plugin, event). */
  ghost predicate UniqueEvents(configs: map<string, EventConfig>) {
    forall i, j | i in configs && j in configs && SameEvent(configs[i], configs[j]) :: i == j
  }

  /** The new table's unique constraint on (plugin, user, event). */
  ghost predicate UniqueUserEvents(rows: map<string, UserConfig>) {
    forall i, j | i in rows && j in rows && SameUserEvent(rows[i], rows[j]) :: i == j
  }

  /** The row holds the schedule of a configuration among `ids`. */
  ghost predicate CameFrom(owners: Owners, configs: map<string, EventConfig>, ids: set<string>, r: UserConfig) {
    exists id :: id in ids && id in configs && Moves(owners, configs[id]) && r == RowOf(owners, configs[id])
  }

  ghost predicate Stored(rows: map<string, UserConfig>, r: UserConfig) {
    exists k :: k in rows && rows[k] == r
  }

  /** The user rows are exactly the schedules of those configurations among `ids` that move, once each. */
  ghost predicate Moved(owners: Owners, configs: map<string, EventConfig>, ids: set<string>, rows: map<string, UserConfig>) {
    && (forall k | k in rows :: CameFrom(owners, configs, ids, rows[k]))
    && (forall id | id in ids && id in configs && Moves(owners, configs[id]) :: Stored(rows, RowOf(owners, configs[id])))
    && UniqueUserEvents(rows)
  }

  /** The row joins with its plugin's definition on the owner, and names this configuration. */
  predicate Restores(owners: Owners, r: UserConfig, plugin: string, event: string) {
    r.plugin == plugin && r.event == event && r.plugin in owners && owners[r.plugin] == Some(r.user)
  }

  ghost predicate NoneRestores(owners: Owners, rows: map<string, UserConfig>, ks: set<string>, plugin: string, event: string) {
    forall k | k in ks && k in rows :: !Restores(owners, rows[k], plugin, event)
  }

  /** The configuration has the schedule of its owner's row among `ks`, or the default where there is none. */
  ghost predicate Restored(owners: Owners, rows: map<string, UserConfig>, ks: set<string>, c: EventConfig) {
    && (forall k | k in ks && k in rows && Restores(owners, rows[k], c.plugin, c.event) :: c.schedule == Stated(rows[k].schedule))
    && (NoneRestores(owners, rows, ks, c.plugin, c.event) ==> c.schedule == MANUAL)
  }

  /** The statement of the downgrade's loop for one joined row. */
  function Updated(owners: Owners, configs: map<string, EventConfig>, r: UserConfig): map<string, EventConfig> {
    map id | id in configs :: UpdatedRow(owners, configs[id], r)
  }

  function UpdatedRow(owners: Owners, c: EventConfig, r: UserConfig): EventConfig {
    if Restores(owners, r, c.plugin, c.event) then c.(schedule := Stated(r.schedule)) else c
  }

  /** The tables; `configs` is in use before the upgrade, `bare` and `rows` after it. */
  class Migration {
    const newId: nat -> string
    const owners: Owners
    var drawn: nat
    var configs: map<string, EventConfig>
    var bare: map<string, Bare>
    var rows: map<string, UserConfig>

    constructor (configs: map<string, EventConfig>, owners: Owners, newId: nat -> string)
      ensures this.configs == configs && this.owners == owners && this.newId == newId
      ensures rows == map[] && bare == map[] && drawn == 0
    {
      this.configs, this.owners, this.newId := configs, owners, newId;
      rows, bare, drawn := map[], map[], 0;
    }

    /** `upgrade`, over the joined rows in any order. */
    method Upgrade()
      requires UniqueEvents(configs) && Unused(newId, drawn, rows) && rows == map[]
      modifies this
      ensures Moved(owners, old(configs), old(configs.Keys), rows)
      ensures bare == Drop(old(configs)) && configs == map[]
    {
      var todo := configs.Keys;
      ghost var done: set<string> := {};
      while todo != {}
        invariant configs == old(configs) && Unused(newId, drawn, rows)
        invariant forall id :: id in configs <==> id in todo || id in done
        invariant todo !! done
        invariant Moved(owners, configs, done, rows)
      {
        var id :| id in todo;
        todo := todo - {id};
        if Moves(owners, configs[id]) {
          MovesOne(owners, configs, done, rows, id, newId(drawn));
          rows := rows[newId(drawn) := RowOf(owners, configs[id])];
          drawn := drawn + 1;
        } else {
          SkipsOne(owners, configs, done, rows, id);
        }
        done := done + {id};
      }
      assert done == configs.Keys;
      bare := Drop(configs);
      configs := map[];
    }

    /** `downgrade`: the columns come back with their defaults, and every row of an owner, in any order,
        updates the configuration of its event. */
    method Downgrade()
      requires UniqueUserEvents(rows)
      modifies this
      ensures configs.Keys == old(bare.Keys)
      ensures forall id | id in old(bare) :: Bare(configs[id].plugin, configs[id].event) == old(bare)[id]
      ensures forall id | id in configs :: Restored(owners, old(rows), old(rows.Keys), configs[id])
      ensures rows == map[]
    {
      configs := AddColumns(bare);
      var todo := rows.Keys;
      ghost var done: set<string> := {};
      while todo != {}
        invariant rows == old(rows) && bare == old(bare)
        invariant forall k :: k in rows <==> k in todo || k in done
        invariant todo !! done && done <= rows.Keys
        invariant Drop(configs) == bare
        invariant forall id | id in configs :: Restored(owners, rows, done, configs[id])
      {
        var k :| k in todo;
        forall id | id in configs ensures Restored(owners, rows, done + {k}, UpdatedRow(owners, configs[id], rows[k])) {
          RestoresOne(owners, rows, done, configs[id], k);
        }
        DropsTheSame(owners, configs, rows[k]);
        configs := Updated(owners, configs, rows[k]);
        todo, done := todo - {k}, done + {k};
      }
      assert done == rows.Keys;
      forall id | id in bare ensures Bare(configs[id].plugin, configs[id].event) == bare[id] {
        assert Drop(configs)[id] == bare[id];
      }
      assert Drop(configs).Keys == configs.Keys;
      rows, bare := map[], map[];
    }

    /** Upgrading and downgrading again gives back a schedule that moved, with its mode, and the default
        for every other. */
    method UpAndDown()
      requires UniqueEvents(configs) && Unused(newId, drawn, rows) && rows == map[]
      modifies this
      ensures configs.Keys == old(configs.Keys)
      ensures forall id | id in configs ::
                configs[id] == old(configs)[id].(schedule := if Moves(owners, old(configs)[id]) then old(configs)[id].schedule else MANUAL)
    {
      ghost var before := configs;
      Upgrade();
      ghost var between := rows;
      Downgrade();
      forall id | id in configs
        ensures configs[id] == old(configs)[id].(schedule := if Moves(owners, old(configs)[id]) then old(configs)[id].schedule else MANUAL)
      {
        assert Drop(before)[id] == Bare(configs[id].plugin, configs[id].event);
        ComesBack(owners, before, between, id, configs[id]);
      }
    }
  }

  lemma SkipsOne(owners: Owners, configs: map<string, EventConfig>, done: set<string>, rows: map<string, UserConfig>, id: string)
    requires Moved(owners, configs, done, rows) && id in configs && !Moves(owners, configs[id])
    ensures Moved(owners, configs, done + {id}, rows)
  {
    forall k | k in rows ensures CameFrom(owners, configs, done + {id}, rows[k]) {
      assert CameFrom(owners, configs, done, rows[k]);
    }
  }

  lemma MovesOne(owners: Owners, configs: map<string, EventConfig>, done: set<string>,
                 rows: map<string, UserConfig>, id: string, k: string)
    requires Moved(owners, configs, done, rows) && UniqueEvents(configs)
    requires id in configs && id !in done && k !in rows && Moves(owners, configs[id])
    ensures Moved(owners, configs, done + {id}, rows[k := RowOf(owners, configs[id])])
  {
    var r := RowOf(owners, configs[id]);
    var after := rows[k := r];
    forall j | j in after
      ensures CameFrom(owners, configs, done + {id}, after[j])
      ensures j != k ==> !SameUserEvent(after[j], r)
    {
      if j != k {
        assert CameFrom(owners, configs, done, rows[j]);
      }
    }
    forall i | i in done + {id} && i in configs && Moves(owners, configs[i])
      ensures Stored(after, RowOf(owners, configs[i]))
    {
      if i == id {
        assert after[k] == r;
      } else {
        var j :| j in rows && rows[j] == RowOf(owners, configs[i]);
        assert after[j] == rows[j];
      }
    }
  }

  lemma RestoresOne(owners: Owners, rows: map<string, UserConfig>, done: set<string>, c: EventConfig, k: string)
    requires UniqueUserEvents(rows) && k in rows && k !in done && done <= rows.Keys
    requires Restored(owners, rows, done, c)
    ensures Restored(owners, rows, done + {k}, UpdatedRow(owners, c, rows[k]))
  {
    if Restores(owners, rows[k], c.plugin, c.event) {
      forall j | j in done && Restores(owners, rows[j], c.plugin, c.event) ensures j == k {
        assert SameUserEvent(rows[j], rows[k]);
      }
      assert !NoneRestores(owners, rows, done + {k}, c.plugin, c.event);
    } else {
      assert NoneRestores(owners, rows, done + {k}, c.plugin, c.event) ==> NoneRestores(owners, rows, done, c.plugin, c.event);
    }
  }

  lemma DropsTheSame(owners: Owners, configs: map<string, EventConfig>, r: UserConfig)
    ensures Drop(Updated(owners, configs, r)) == Drop(configs)
  {
  }

  /** The plugin belongs to this user. */
  predicate OwnedBy(owners: Owners, plugin: string, user: string) {
    user != "" && plugin in owners && owners[plugin] == Some(user)
  }

  predicate IsTimed(s: Schedule) {
    s.mode != "" && s.mode != "manual"
  }

  /** An interval or cron schedule of a plugin with an owner moves to that owner as it is, and comes back from
      there. */
  lemma TimedSchedulesMove(owners: Owners, configs: map<string, EventConfig>, rows: map<string, UserConfig>, id: string,
                           user: string, c: EventConfig)
    requires UniqueEvents(configs) && Moved(owners, configs, configs.Keys, rows) && id in configs
    requires OwnedBy(owners, configs[id].plugin, user) && IsTimed(configs[id].schedule)
    requires SameEvent(c, configs[id]) && Restored(owners, rows, rows.Keys, c)
    ensures Stored(rows, UserConfig(configs[id].plugin, user, configs[id].event, configs[id].schedule))
    ensures c == configs[id]
  {
    assert Moves(owners, configs[id]) && RowOf(owners, configs[id]).schedule == configs[id].schedule;
    ComesBack(owners, configs, rows, id, c);
  }

  /** A manual schedule, and any of a plugin without an owner, gives nobody a row and comes back as the default. */
  lemma OthersBecomeManual(owners: Owners, configs: map<string, EventConfig>, rows: map<string, UserConfig>, id: string, c: EventConfig)
    requires UniqueEvents(configs) && Moved(owners, configs, configs.Keys, rows) && id in configs
    requires !IsTimed(configs[id].schedule) || forall user :: !OwnedBy(owners, configs[id].plugin, user)
    requires SameEvent(c, configs[id]) && Restored(owners, rows, rows.Keys, c)
    ensures forall k | k in rows :: rows[k].plugin != c.plugin || rows[k].event != c.event
    ensures c.schedule == Schedule("manual", None, None)
  {
    if Moves(owners, configs[id]) {
      assert OwnedBy(owners, configs[id].plugin, owners[configs[id].plugin].value);
    }
    ComesBack(owners, configs, rows, id, c);
    forall k | k in rows ensures rows[k].plugin != c.plugin || rows[k].event != c.event {
      assert CameFrom(owners, configs, configs.Keys, rows[k]);
      var from :| from in configs && Moves(owners, configs[from]) && rows[k] == RowOf(owners, configs[from]);
      assert !SameEvent(configs[from], configs[id]);
    }
  }

  /** What a configuration holds after the upgrade and the downgrade. */
  lemma ComesBack(owners: Owners, configs: map<string, EventConfig>, rows: map<string, UserConfig>, id: string, c: EventConfig)
    requires UniqueEvents(configs) && Moved(owners, configs, configs.Keys, rows) && id in configs
    requires SameEvent(c, configs[id]) && Restored(owners, rows, rows.Keys, c)
    ensures c.schedule == if Moves(owners, configs[id]) then configs[id].schedule else MANUAL
  {
    if Moves(owners, configs[id]) {
      assert Stored(rows, RowOf(owners, configs[id]));
    } else {
      forall k | k in rows ensures !Restores(owners, rows[k], c.plugin, c.event) {
        assert CameFrom(owners, configs, configs.Keys, rows[k]);
        var from :| from in configs && Moves(owners, configs[from]) && rows[k] == RowOf(owners, configs[from]);
        assert from != id;
        assert !SameEvent(configs[from], configs[id]);
      }
      assert NoneRestores(owners, rows, rows.Keys, c.plugin, c.event);
    }
  }

  /** The round trip is exact for a configuration if and only if its schedule moves or was the default. */
  lemma RoundTripIffMovedOrManual(owners: Owners, configs: map<string, EventConfig>, rows: map<string, UserConfig>,
                                  id: string, c: EventConfig)
    requires UniqueEvents(configs) && Moved(owners, configs, configs.Keys, rows) && id in configs
    requires SameEvent(c, configs[id]) && Restored(owners, rows, rows.Keys, c)
    ensures c == configs[id] <==> Moves(owners, configs[id]) || configs[id].schedule == MANUAL
  {
    ComesBack(owners, configs, rows, id, c);
  }
}
