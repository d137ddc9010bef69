/**
 * Which typed entity a block becomes: the entity enum names one variant per
 * classname, and a classname it does not list becomes the untyped variant.
 * The per-variant field extraction is generated code that is not part of
 * this model; what is modelled is the classname table and the payload type
 * each variant carries.
 */
module EntityClass {

  /** The variants of the typed entity enum, `Unknown` being the default one. */
  datatype EntityKind =
    | SpotLight | Light | LightSpot | PropDynamic | PropDynamicOverride | PropPhysics
    | EnvSprite | Spawn | Regenerate | RespawnRoom | Door | WorldSpawn | ObserverPoint
    | Brush | AmmoPackSmall | AmmoPackMedium | HealthPackFull | HealthPackSmall
    | HealthPackMedium | AmmoPackFull | LightGlow | TriggerMultiple | LogicRelay
    | FilterActivatorTeam | LogicAuto | DustMotes | SkyCamera | PathTrack
    | SoundScapeProxy | RespawnVisualizer | ParticleSystem | TeamControlPoint
    | AreaPortal | GameText | RopeKeyFrame | RopeMove | GameRules | KothLogic
    | Unknown

  /** The payload a variant carries: the two pickup structs, or another struct named by its type. */
  datatype Payload = AmmoPack | HealthPack | Other(typeName: string)

  /** The payload type each variant is declared with. */
  function PayloadOf(k: EntityKind): Payload
  {
    match k
    case SpotLight => Other("SpotLight")
    case Light => Other("Light")
    case LightSpot => Other("LightSpot")
    case PropDynamic => Other("PropDynamic")
    case PropDynamicOverride => Other("PropDynamicOverride")
    case PropPhysics => Other("PropDynamic")
    case EnvSprite => Other("EnvSprite")
    case Spawn => Other("Spawn")
    case Regenerate => Other("Regenerate")
    case RespawnRoom => Other("RespawnRoom")
    case Door => Other("Door")
    case WorldSpawn => Other("WorldSpawn")
    case ObserverPoint => Other("ObserverPoint")
    case Brush => Other("BrushEntity")
    case AmmoPackSmall => AmmoPack
    case AmmoPackMedium => AmmoPack
    case HealthPackFull => HealthPack
    case HealthPackSmall => HealthPack
    case HealthPackMedium => HealthPack
    case AmmoPackFull => AmmoPack
    case LightGlow => Other("LightGlow")
    case TriggerMultiple => Other("TriggerMultiple")
    case LogicRelay => Other("LogicRelay")
    case FilterActivatorTeam => Other("FilterActivatorTeam")
    case LogicAuto => Other("LogicAuto")
    case DustMotes => Other("DustMotes")
    case SkyCamera => Other("SkyCamera")
    case PathTrack => Other("PathTrack")
    case SoundScapeProxy => Other("SoundScapeProxy")
    case RespawnVisualizer => Other("RespawnVisualizer")
    case ParticleSystem => Other("ParticleSystem")
    case TeamControlPoint => Other("TeamControlPoint")
    case AreaPortal => Other("AreaPortal")
    case GameText => Other("GameText")
    case RopeKeyFrame => Other("RopeKeyFrame")
    case RopeMove => Other("RopeMove")
    case GameRules => Other("GameRules")
    case KothLogic => Other("KothLogic")
    case Unknown => Other("RawEntity")
  }

  /** A classname table: each entry names the variant a classname selects. */
  type ClassTable = seq<(string, EntityKind)>

  /**
   * The classname table in the order the enum declares it. The two
   * full-size pickups are crossed over: `item_ammopack_full` is declared
   * as a health pack and `item_healthkit_full` as an ammo pack.
   */
  const DeclaredTable: ClassTable := [
      ("point_spotlight", SpotLight),
      ("light", Light),
      ("light_spot", LightSpot),
      ("prop_dynamic", PropDynamic),
      ("prop_dynamic_override", PropDynamicOverride),
      ("prop_physics_multiplayer", PropPhysics),
      ("env_sprite", EnvSprite),
      ("info_player_teamspawn", Spawn),
      ("func_regenerate", Regenerate),
      ("func_respawnroom", RespawnRoom),
      ("func_door", Door),
      ("worldspawn", WorldSpawn),
      ("info_observer_point", ObserverPoint),
      ("func_brush", Brush),
      ("item_ammopack_small", AmmoPackSmall),
      ("item_ammopack_medium", AmmoPackMedium),
      ("item_ammopack_full", HealthPackFull),
      ("item_healthkit_small", HealthPackSmall),
      ("item_healthkit_medium", HealthPackMedium),
      ("item_healthkit_full", AmmoPackFull),
      ("env_lightglow", LightGlow),
      ("trigger_multiple", TriggerMultiple),
      ("logic_relay", LogicRelay),
      ("filter_activator_tfteam", FilterActivatorTeam),
      ("logic_auto", LogicAuto),
      ("func_dustmotes", DustMotes),
      ("sky_camera", SkyCamera),
      ("path_track", PathTrack),
      ("env_soundscape_proxy", SoundScapeProxy),
      ("func_respawnroomvisualizer", RespawnVisualizer),
      ("info_particle_system", ParticleSystem),
      ("team_control_point", TeamControlPoint),
      ("func_areaportal", AreaPortal),
      ("game_text", GameText),
      ("keyframe_rope", RopeKeyFrame),
      ("move_rope", RopeMove),
      ("tf_gamerules", GameRules),
      ("tf_logic_koth", KothLogic)
    ]

  /** The declared table with each full-size pickup put in its own family. */
  const CorrectedTable: ClassTable :=
    DeclaredTable[16 := ("item_ammopack_full", AmmoPackFull)][19 := ("item_healthkit_full", HealthPackFull)]

  /** The variant a classname selects: the first entry with that name, else the default variant. */
  function Lookup(table: ClassTable, classname: string): (k: EntityKind)
    ensures k != Unknown ==> exists i :: 0 <= i < |table| && table[i] == (classname, k)
  {
    LookupFrom(table, classname, 0)
  }

  /** Lookup among the entries from index `from` on. */
  function LookupFrom(table: ClassTable, classname: string, from: nat): (k: EntityKind)
    requires from <= |table|
    ensures k != Unknown ==> exists i :: from <= i < |table| && table[i] == (classname, k)
    decreases |table| - from
  {
    if from == |table| then Unknown
    else if table[from].0 == classname then table[from].1
    else LookupFrom(table, classname, from + 1)
  }

  /** The classname table as declared. */
  function ClassifyAsWritten(classname: string): EntityKind
  {
    Lookup(DeclaredTable, classname)
  }

  /** The classname table with the full-size pickup classnames the right way round. */
  function Classify(classname: string): EntityKind
  {
    Lookup(CorrectedTable, classname)
  }

  predicate NamesDistinct(table: ClassTable)
  {
    forall i, j :: 0 <= i < j < |table| ==> table[i].0 != table[j].0
  }

  /** The declared classnames are pairwise distinct, so no entry is shadowed by an earlier one. */
  lemma DeclaredNamesDistinct()
    ensures NamesDistinct(DeclaredTable)
  {
    DeclaredNamesDistinctLow();
    DeclaredNamesDistinctAcross();
    DeclaredNamesDistinctHigh();
  }

  // The pairs are compared in three parts, to keep each proof small.
  lemma DeclaredNamesDistinctLow()
    ensures forall i, j :: 0 <= i < j < 19 ==> DeclaredTable[i].0 != DeclaredTable[j].0
  {
  }

  lemma DeclaredNamesDistinctAcross()
    ensures forall i, j :: 0 <= i < 19 <= j < |DeclaredTable| ==> DeclaredTable[i].0 != DeclaredTable[j].0
  {
  }

  lemma DeclaredNamesDistinctHigh()
    ensures forall i, j :: 19 <= i < j < |DeclaredTable| ==> DeclaredTable[i].0 != DeclaredTable[j].0
  {
  }

  /** The correction changes variants only, never names. */
  lemma CorrectedNamesDistinct()
    ensures |CorrectedTable| == |DeclaredTable|
    ensures forall i :: 0 <= i < |CorrectedTable| ==> CorrectedTable[i].0 == DeclaredTable[i].0
    ensures NamesDistinct(CorrectedTable)
  {
    DeclaredNamesDistinct();
  }

  /** An entry no earlier entry shadows is reached: its classname selects its variant. */
  lemma {:induction false} LookupFindsEntry(table: ClassTable, from: nat, i: nat, classname: string, k: EntityKind)
    requires from <= i < |table| && table[i] == (classname, k)
    requires forall j :: from <= j < i ==> table[j].0 != classname
    ensures LookupFrom(table, classname, from) == k
    decreases i - from
  {
    if from < i {
      LookupFindsEntry(table, from + 1, i, classname, k);
    }
  }

  /** A classname no entry lists selects the default variant. */
  lemma {:induction false} LookupUnlisted(table: ClassTable, from: nat, classname: string)
    requires from <= |table|
    requires forall j :: from <= j < |table| ==> table[j].0 != classname
    ensures LookupFrom(table, classname, from) == Unknown
    decreases |table| - from
  {
    if from < |table| {
      LookupUnlisted(table, from + 1, classname);
    }
  }

  /** Changing the variant of one entry changes nothing for the other classnames. */
  lemma {:induction false} LookupIgnoresOtherEntry(table: ClassTable, from: nat, i: nat, k: EntityKind, classname: string)
    requires from <= |table| && i < |table| && classname != table[i].0
    ensures LookupFrom(table[i := (table[i].0, k)], classname, from) == LookupFrom(table, classname, from)
    decreases |table| - from
  {
    if from < |table| {
      LookupIgnoresOtherEntry(table, from + 1, i, k, classname);
    }
  }

  /** Every declared classname selects its declared variant. */
  lemma DeclaredSelects(i: nat, classname: string, k: EntityKind)
    requires i < |DeclaredTable| && DeclaredTable[i] == (classname, k)
    ensures ClassifyAsWritten(classname) == k
  {
    DeclaredNamesDistinct();
    LookupFindsEntry(DeclaredTable, 0, i, classname, k);
  }

  /** Every listed classname selects its entry's variant. */
  lemma ClassifySelects(i: nat, classname: string, k: EntityKind)
    requires i < |CorrectedTable| && CorrectedTable[i] == (classname, k)
    ensures Classify(classname) == k
  {
    CorrectedNamesDistinct();
    LookupFindsEntry(CorrectedTable, 0, i, classname, k);
  }

  /** A classname the table does not list selects the default variant. */
  lemma ClassifyUnlisted(classname: string)
    requires forall j :: 0 <= j < |CorrectedTable| ==> CorrectedTable[j].0 != classname
    ensures Classify(classname) == Unknown
  {
    LookupUnlisted(CorrectedTable, 0, classname);
  }

  /** Exactly the three ammo pack variants carry the ammo pack payload. */
  lemma AmmoPackPayload(k: EntityKind)
    ensures PayloadOf(k) == AmmoPack <==> k == AmmoPackSmall || k == AmmoPackMedium || k == AmmoPackFull
  {
  }

  /** Exactly the three health pack variants carry the health pack payload. */
  lemma HealthPackPayload(k: EntityKind)
    ensures PayloadOf(k) == HealthPack <==> k == HealthPackSmall || k == HealthPackMedium || k == HealthPackFull
  {
  }

  /** Each pickup classname selects the variant of its own size and family. */
  lemma PickupClassnames(classname: string)
    ensures classname == "item_ammopack_small" ==> Classify(classname) == AmmoPackSmall
    ensures classname == "item_ammopack_medium" ==> Classify(classname) == AmmoPackMedium
    ensures classname == "item_ammopack_full" ==> Classify(classname) == AmmoPackFull
    ensures classname == "item_healthkit_small" ==> Classify(classname) == HealthPackSmall
    ensures classname == "item_healthkit_medium" ==> Classify(classname) == HealthPackMedium
    ensures classname == "item_healthkit_full" ==> Classify(classname) == HealthPackFull
  {
    if classname == "item_ammopack_small" {
      ClassifySelects(14, classname, AmmoPackSmall);
    } else if classname == "item_ammopack_medium" {
      ClassifySelects(15, classname, AmmoPackMedium);
    } else if classname == "item_ammopack_full" {
      ClassifySelects(16, classname, AmmoPackFull);
    } else if classname == "item_healthkit_small" {
      ClassifySelects(17, classname, HealthPackSmall);
    } else if classname == "item_healthkit_medium" {
      ClassifySelects(18, classname, HealthPackMedium);
    } else if classname == "item_healthkit_full" {
      ClassifySelects(19, classname, HealthPackFull);
    }
  }

  /** The declared table sends each full-size pickup classname to the other family's variant. */
  lemma AsWrittenCrossesFullPickups(classname: string)
    ensures classname == "item_ammopack_full" ==> ClassifyAsWritten(classname) == HealthPackFull
    ensures classname == "item_healthkit_full" ==> ClassifyAsWritten(classname) == AmmoPackFull
  {
    if classname == "item_ammopack_full" {
      DeclaredSelects(16, classname, HealthPackFull);
    } else if classname == "item_healthkit_full" {
      DeclaredSelects(19, classname, AmmoPackFull);
    }
  }

  /** Correcting the variants of two entries changes nothing for the other classnames. */
  lemma LookupIgnoresTwoEntries(table: ClassTable, i: nat, ki: EntityKind, j: nat, kj: EntityKind, classname: string)
    requires i < |table| && j < |table| && classname != table[i].0 && classname != table[j].0
    ensures Lookup(table[i := (table[i].0, ki)][j := (table[j].0, kj)], classname) == Lookup(table, classname)
  {
    var once := table[i := (table[i].0, ki)];
    LookupIgnoresOtherEntry(table, 0, i, ki, classname);
    assert once[j].0 == table[j].0;
    LookupIgnoresOtherEntry(once, 0, j, kj, classname);
  }

  /** Apart from the two full-size pickups the declared table and the corrected one agree. */
  lemma AsWrittenAgreesElsewhere(classname: string)
    requires classname != "item_ammopack_full" && classname != "item_healthkit_full"
    ensures ClassifyAsWritten(classname) == Classify(classname)
  {
    assert DeclaredTable[16].0 == "item_ammopack_full";
    assert DeclaredTable[19].0 == "item_healthkit_full";
    LookupIgnoresTwoEntries(DeclaredTable, 16, AmmoPackFull, 19, HealthPackFull, classname);
  }
}
