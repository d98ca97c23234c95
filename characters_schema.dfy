/**
 * The `characters` table as its migration declares it: the columns, their
 * defaults, the unique nickname and the owner reference. The constraints
 * themselves are enforced by the Database module.
 */
module CharactersSchema {
  import opened Wrappers

  // Column defaults declared by the migration.
  const DefaultLevel: int := 1
  const DefaultExp: int := 0
  const DefaultCultivationRealm: int := 1
  const DefaultCurrentQi: int := 0
  const DefaultMaxQi: int := 100
  const DefaultAttribute: int := 5
  const DefaultLocationId: int := 1

  /** One row of the table (timestamps are not modelled). */
  datatype Character = Character(
    id: nat,
    userId: nat,
    nickname: string,
    level: int,
    exp: int,
    cultivationRealm: int,
    currentQi: int,
    maxQi: int,
    strength: int,
    agility: int,
    vitality: int,
    spirit: int,
    locationId: int)

  /**
   * The attributes handed to an insert. `nickname` has no default and must
   * be given; every other column is either supplied (`Some`) or omitted
   * (`None`), in which case the column default applies.
   */
  datatype CharacterFields = CharacterFields(
    nickname: string,
    level: Option<int>,
    exp: Option<int>,
    cultivationRealm: Option<int>,
    currentQi: Option<int>,
    maxQi: Option<int>,
    strength: Option<int>,
    agility: Option<int>,
    vitality: Option<int>,
    spirit: Option<int>,
    locationId: Option<int>)

  /** Attributes naming the nickname only. */
  function OnlyNickname(nickname: string): CharacterFields
  {
    CharacterFields(nickname, None, None, None, None, None, None, None, None, None, None)
  }

  function ColumnValue(supplied: Option<int>, default: int): int
  {
    match supplied
    case Some(v) => v
    case None => default
  }

  /** The row the database stores for an insert of `f` owned by `userId` under key `id`. */
  function WithDefaults(id: nat, userId: nat, f: CharacterFields): Character
  {
    Character(
      id, userId, f.nickname,
      ColumnValue(f.level, DefaultLevel),
      ColumnValue(f.exp, DefaultExp),
      ColumnValue(f.cultivationRealm, DefaultCultivationRealm),
      ColumnValue(f.currentQi, DefaultCurrentQi),
      ColumnValue(f.maxQi, DefaultMaxQi),
      ColumnValue(f.strength, DefaultAttribute),
      ColumnValue(f.agility, DefaultAttribute),
      ColumnValue(f.vitality, DefaultAttribute),
      ColumnValue(f.spirit, DefaultAttribute),
      ColumnValue(f.locationId, DefaultLocationId))
  }

  /** A row inserted with nothing but a nickname gets every declared default. */
  lemma OmittedColumnsTakeDefaults(id: nat, userId: nat, nickname: string)
    ensures WithDefaults(id, userId, OnlyNickname(nickname))
         == Character(id, userId, nickname, 1, 0, 1, 0, 100, 5, 5, 5, 5, 1)
  {
  }

  /**
   * Every column holds the supplied value when one is supplied and its
   * default otherwise; the key, owner and nickname are taken as given.
   */
  lemma SuppliedColumnsOverrideDefaults(id: nat, userId: nat, f: CharacterFields)
    ensures var c := WithDefaults(id, userId, f);
      && c.id == id && c.userId == userId && c.nickname == f.nickname
      && (f.level.Some? ==> c.level == f.level.value) && (f.level.None? ==> c.level == 1)
      && (f.exp.Some? ==> c.exp == f.exp.value) && (f.exp.None? ==> c.exp == 0)
      && (f.cultivationRealm.Some? ==> c.cultivationRealm == f.cultivationRealm.value)
      && (f.cultivationRealm.None? ==> c.cultivationRealm == 1)
      && (f.currentQi.Some? ==> c.currentQi == f.currentQi.value) && (f.currentQi.None? ==> c.currentQi == 0)
      && (f.maxQi.Some? ==> c.maxQi == f.maxQi.value) && (f.maxQi.None? ==> c.maxQi == 100)
      && (f.strength.Some? ==> c.strength == f.strength.value) && (f.strength.None? ==> c.strength == 5)
      && (f.agility.Some? ==> c.agility == f.agility.value) && (f.agility.None? ==> c.agility == 5)
      && (f.vitality.Some? ==> c.vitality == f.vitality.value) && (f.vitality.None? ==> c.vitality == 5)
      && (f.spirit.Some? ==> c.spirit == f.spirit.value) && (f.spirit.None? ==> c.spirit == 5)
      && (f.locationId.Some? ==> c.locationId == f.locationId.value) && (f.locationId.None? ==> c.locationId == 1)
  {
  }

  /** A character created with a nickname and level 99 keeps 99 and defaults the rest. */
  lemma ExplicitLevelKeepsOtherDefaults(id: nat, userId: nat, nickname: string)
    ensures WithDefaults(id, userId, OnlyNickname(nickname).(level := Some(99)))
         == Character(id, userId, nickname, 99, 0, 1, 0, 100, 5, 5, 5, 5, 1)
  {
  }
}
