/** The document the interpreters fill and the serializers read: individuals with
    their names, events and gender, families that refer to individuals by id, the
    header's submitter reference and the submitter records. The Go types are
    generated from a schema that is not part of this model; their fields are the ones
    the code reads and writes. Events are generic in the type of their date, since
    gedcom/serialize.go is written against a date whose fields are strings. */
module Document {
  import opened Wrappers

  /** Go's `uint32`. */
  type Uint32 = v: int | 0 <= v < 0x1_0000_0000

  /** `Gedcom_Individual_Date`. */
  datatype IndividualDate = IndividualDate(year: Uint32, month: Uint32, day: Uint32)

  /** `Gedcom_Individual_Event`; `date` may be nil in Go, `None` standing for nil. */
  datatype Event<D> = Event(date: Option<D>, place: string, primary: bool)

  /** `Gedcom_Individual_Name`. */
  datatype IndividualName = IndividualName(givenName: string, surname: string, primary: bool)

  /** `Gedcom_Individual`. */
  datatype Individual<D> = Individual(
    id: string,
    names: seq<IndividualName>,
    gender: string,
    birthEvents: seq<Event<D>>,
    deathEvents: seq<Event<D>>)

  /** `Gedcom_Family`. */
  datatype Family = Family(id: string, fatherId: string, motherId: string, childIds: seq<string>)

  /** `Gedcom_Header`, of which only the submitter reference is used. */
  datatype Header = Header(submitter: string)

  /** `Gedcom_Submitter`, of which only the id is used. */
  datatype Submitter = Submitter(id: string)

  /** An individual as the record interpreters start it: only the id is set. */
  function NewIndividual<D>(id: string): (r: Individual<D>)
    ensures r.id == id && r.names == [] && r.gender == ""
    ensures r.birthEvents == [] && r.deathEvents == []
  {
    Individual(id, [], "", [], [])
  }

  /** An event as the interpreters start it: no date, no place, not primary. */
  function EmptyEvent<D>(): (r: Event<D>)
    ensures r.date.None? && r.place == "" && !r.primary
  {
    Event(None, "", false)
  }
}
