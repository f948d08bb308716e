/** The records of the pipeline and its fixed configuration tables. */
module Towers {
  import opened Frames
  import opened Substitution

  /** One row of the cell-tower table as read from the CSV file, with the
      `changeable` column already split into its two indicator columns. */
  datatype TowerRow = TowerRow(
    radio: string,
    mcc: int,
    mnc: int,
    lac: int,
    cid: Option<int>,
    long: real,
    lat: real,
    range: int,
    sample: int,
    changeable0: int,
    changeable1: int,
    avgSignal: int,
    created: int,
    updated: int)

  /** The (operator, circle) cells that the mapping table holds for one
      (mcc, mnc) key; either cell may be empty in the file. */
  datatype Carrier = Carrier(operator: Option<string>, circle: Option<string>)

  /** The mapping table, keyed by (mcc, mnc). */
  type Carriers = map<(int, int), Carrier>

  /** A tower row after the left join: the mapping's cells, or nulls when the
      key has no entry. */
  datatype JoinedRow = JoinedRow(tower: TowerRow, operator: Option<string>, circle: Option<string>)

  /** A row after the unused columns are dropped. */
  datatype Row = Row(
    radio: string,
    mcc: int,
    mnc: int,
    cid: Option<int>,
    long: real,
    lat: real,
    created: int,
    updated: int,
    operator: Option<string>,
    circle: Option<string>)

  /** Radio technology to network generation. */
  const RadioPairs: Pairs :=
    [("UMTS", "3G"), ("GSM", "2G"), ("LTE", "4G"), ("CDMA", "3G"), ("NR", "5G")]

  /** Spellings of one operator merged into one name. */
  const OperatorPairs: Pairs :=
    [("Airtel", "AirTel"), ("Airtel (Old TATA DOCOMO)", "AirTel"),
     ("Reliance (Used for Jio in some area)", "Jio")]

  /** Operators no longer in service, removed one after another. */
  const DefunctOperators: seq<string> :=
    ["AIRCEL (Not in Use)", "Uninor", "DOLPHIN", "Videocon Datacom", "Loop Mobile (Not in Use)"]

  /** Regional labels of the mapping table merged into canonical circles. */
  const CirclePairs: Pairs :=
    [("Karnataka (Bangalore)", "Karnataka"),
     ("Andhra Pradesh", "Andhra Pradesh and Telangana"),
     ("Maharashtra", "Maharashtra & Goa"),
     ("Delhi", "Delhi & NCR"),
     ("Tamil Nadu (incl. Chennai)", "Tamil Nadu"),
     ("Tamil Nadu including Chennai", "Tamil Nadu"),
     ("Chennai", "Tamil Nadu"),
     ("Uttar Pradesh (West)", "Uttar Pradesh (W) & Uttarakhand"),
     ("Uttar Pradesh (East)", "Uttar Pradesh (E)"),
     ("Bihar", "Bihar & Jharkhand"),
     ("Bihar/Jharkhand", "Bihar & Jharkhand"),
     ("Madhya Pradesh", "Madhya Pradesh & Chhattisgarh"),
     ("Madhya Pradesh & Chattishgarh", "Madhya Pradesh & Chhattisgarh"),
     ("Vodafone Punjab", "Punjab"),
     ("Kolkata", "West Bengal"),
     ("Assam", "Assam & North East"),
     ("North East", "Assam & North East")]

  /** No substitution table feeds one of its targets back into a source, so
      each chain of replace calls is a single lookup and is idempotent. */
  lemma RadioTableIsFinal()
    ensures TargetsAreFinal(RadioPairs) && Chainless(RadioPairs)
  {
  }

  lemma OperatorTableIsFinal()
    ensures TargetsAreFinal(OperatorPairs) && Chainless(OperatorPairs)
  {
  }

  lemma CircleTableIsFinal()
    ensures TargetsAreFinal(CirclePairs) && Chainless(CirclePairs)
  {
  }

  /** Each chain of replace calls on a cell is the single lookup. */
  lemma RadioChain(v: string)
    ensures ReplaceAll(v, RadioPairs) == Lookup(RadioPairs, v)
  {
    RadioTableIsFinal();
    ChainIsLookup(RadioPairs, v);
  }

  lemma OperatorChain(v: string)
    ensures ReplaceAll(v, OperatorPairs) == Lookup(OperatorPairs, v)
  {
    OperatorTableIsFinal();
    ChainIsLookup(OperatorPairs, v);
  }

  lemma CircleChain(v: string)
    ensures ReplaceAll(v, CirclePairs) == Lookup(CirclePairs, v)
  {
    CircleTableIsFinal();
    ChainIsLookup(CirclePairs, v);
  }

  /** A looked-up name is canonical: it is not the source of any pair. */
  lemma RadioCanonical(v: string)
    ensures !IsSource(RadioPairs, Lookup(RadioPairs, v))
    ensures !IsSource(RadioPairs, "4G")
  {
    RadioTableIsFinal();
    LookupRemovesSources(RadioPairs, v);
    LookupRemovesSources(RadioPairs, "LTE");
  }

  lemma OperatorCanonical(v: string)
    ensures !IsSource(OperatorPairs, Lookup(OperatorPairs, v))
  {
    OperatorTableIsFinal();
    LookupRemovesSources(OperatorPairs, v);
  }

  lemma CircleCanonical(v: string)
    ensures !IsSource(CirclePairs, Lookup(CirclePairs, v))
  {
    CircleTableIsFinal();
    LookupRemovesSources(CirclePairs, v);
  }

  /** What the tables do to the values of a Jio row recorded as GSM in Delhi. */
  lemma GsmIsTwoG()
    ensures Lookup(RadioPairs, "GSM") == "2G"
  {
  }

  lemma JioSpellings()
    ensures Lookup(OperatorPairs, "Jio") == "Jio"
    ensures Lookup(OperatorPairs, "Reliance (Used for Jio in some area)") == "Jio"
  {
  }

  lemma JioIsActive()
    ensures "Jio" !in DefunctOperators
  {
  }

  lemma DelhiIsDelhiNcr()
    ensures Lookup(CirclePairs, "Delhi") == "Delhi & NCR"
  {
    LookupHit(CirclePairs, 3);
  }

  /** The five technology names of the tower file map to generations. */
  lemma TechnologyGenerations(v: string)
    requires v in {"UMTS", "GSM", "LTE", "CDMA", "NR"}
    ensures Lookup(RadioPairs, v) in {"2G", "3G", "4G", "5G"}
  {
  }

  /** The radio values that come out of the remap as generations: the five
      technology names, and the four generations, which the remap passes
      through. A second call of `data_cleaning` on the caller's table sees
      the latter. */
  predicate KnownRadio(v: string)
  {
    v in {"UMTS", "GSM", "LTE", "CDMA", "NR"} || v in {"2G", "3G", "4G", "5G"}
  }

  lemma KnownRadioGenerations(v: string)
    requires KnownRadio(v)
    ensures Lookup(RadioPairs, v) in {"2G", "3G", "4G", "5G"}
  {
    if v in {"UMTS", "GSM", "LTE", "CDMA", "NR"} {
      TechnologyGenerations(v);
    } else {
      GenerationsPassThrough(v);
    }
  }

  /** The remap leaves a generation as it is. */
  lemma GenerationsPassThrough(v: string)
    requires v in {"2G", "3G", "4G", "5G"}
    ensures Lookup(RadioPairs, v) == v
  {
    forall i | 0 <= i < |RadioPairs| ensures RadioPairs[i].0 != v {
      assert |RadioPairs[i].0| != 2 || RadioPairs[i].0 == "NR";
    }
    LookupMiss(RadioPairs, v);
  }
}
