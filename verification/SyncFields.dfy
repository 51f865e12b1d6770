/** The syncFields values that the CRD admits, and the paths they stand for. */
module SyncFields {
  import Text
  import opened FilterFields

  /** The values that the CRD admits in syncFields. */
  const SPEC := "spec"
  const STATUS := "status"
  const RESOURCE_ID := "resourceID"
  const SPEC_RESOURCE_ID := "spec.resourceID"
  const SYNCABLE: set<string> := {SPEC, STATUS, SPEC_RESOURCE_ID}

  lemma SplitSyncable()
    ensures Text.Split(SPEC, '.') == [SPEC]
    ensures Text.Split(STATUS, '.') == [STATUS]
    ensures Text.Split(SPEC_RESOURCE_ID, '.') == [SPEC, RESOURCE_ID]
  {
    Text.SplitWhole(SPEC, '.');
    Text.SplitWhole(STATUS, '.');
    SpecResourceIdParts();
    Text.SplitTwo(SPEC, '.', RESOURCE_ID, SPEC_RESOURCE_ID);
  }

  lemma SpecResourceIdParts()
    ensures SPEC_RESOURCE_ID == SPEC + ['.'] + RESOURCE_ID
    ensures '.' !in SPEC && '.' !in RESOURCE_ID
  {
  }

  lemma SyncableIsNotReserved()
    ensures SPEC !in RESERVED && STATUS !in RESERVED && SPEC != STATUS
  {
  }

  lemma SyncableCases(f: string)
    requires f in SYNCABLE
    ensures f == SPEC || f == STATUS || f == SPEC_RESOURCE_ID
  {
  }

  lemma SpecResourceIdIsOrdinary()
    ensures Ordinary(Text.Split(SPEC_RESOURCE_ID, '.')) && Text.Split(SPEC_RESOURCE_ID, '.')[0] != STATUS
  {
    SplitSyncable();
    SyncableIsNotReserved();
  }

  lemma SyncableIsOrdinary(f: string)
    requires f in SYNCABLE
    ensures Ordinary(Text.Split(f, '.'))
    ensures f != STATUS ==> Text.Split(f, '.')[0] != STATUS
  {
    SyncableCases(f);
    if f == SPEC_RESOURCE_ID {
      SpecResourceIdIsOrdinary();
    } else {
      SplitSyncable();
      SyncableIsNotReserved();
    }
  }

  lemma SyncableFieldsAreOrdinary(fields: seq<string>)
    requires forall f | f in fields :: f in SYNCABLE
    ensures OrdinaryFields(fields)
    ensures STATUS !in fields ==> forall f | f in fields :: Text.Split(f, '.')[0] != STATUS
  {
    forall f | f in fields ensures Ordinary(Text.Split(f, '.')) && (f != STATUS ==> Text.Split(f, '.')[0] != STATUS) {
      SyncableIsOrdinary(f);
    }
  }
}
