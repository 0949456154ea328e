/** The part of CloudKit's `CKRecord` the domain model reads and writes: a
    typed record with an identifier, a server-assigned creation date and a
    map from field keys to values. */
module Records {

  import opened Wrappers

  newtype byte = x: int | 0 <= x < 256

  type Bytes = seq<byte>

  /** A point in time (`Date`), kept opaque. */
  datatype Date = Date(sinceReferenceDate: real)

  /** `CKRecord.ID`, identified by its record name. */
  datatype RecordId = RecordId(recordName: string)

  /** `CKRecord.Reference.Action`: what happens to the referring record when
      the referenced one is deleted. */
  datatype ReferenceAction = NoAction | DeleteSelf

  /** The field values the application stores. An `Asset` stands for a
      `CKAsset`: a file whose bytes are `None` when they cannot be read back. */
  datatype Value =
    | Str(s: string)
    | DateValue(date: Date)
    | Asset(contents: Option<Bytes>)
    | Ref(target: RecordId, action: ReferenceAction)

  /** A `CKRecord`. `creationDate` is set by the server when the record is
      saved; a record built on the device has none. */
  datatype Record = Record(
    recordType: string,
    recordID: RecordId,
    creationDate: Option<Date>,
    fields: map<string, Value>)

  /** `CKRecord(recordType:recordID:)`: a fresh, unsaved record. */
  function NewRecord(recordType: string, id: RecordId): Record
  {
    Record(recordType, id, None, map[])
  }

  /** `record.setValue(v, forKey: key)`: the field `key` now holds `v` and
      nothing else about the record changes. */
  function SetValue(record: Record, key: string, v: Value): Record
  {
    record.(fields := record.fields[key := v])
  }

  /** `record[key] as? String`: the field's text when it is present and
      holds a string, `None` otherwise. */
  function StringField(record: Record, key: string): Option<string>
  {
    if key in record.fields && record.fields[key].Str? then Some(record.fields[key].s) else None
  }

  /** `record[key] as? CKAsset`: the asset's (possibly unreadable) contents
      when the field is present and holds an asset, `None` otherwise. */
  function AssetField(record: Record, key: string): Option<Option<Bytes>>
  {
    if key in record.fields && record.fields[key].Asset? then Some(record.fields[key].contents) else None
  }

  /** The server saving a record: it assigns the creation date `d` and keeps
      everything the client wrote. */
  function Saved(record: Record, d: Date): Record
  {
    record.(creationDate := Some(d))
  }
}
