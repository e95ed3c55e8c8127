/**
 * The persisted entities, as rows of the store. A speaker refers to its camp by the camp's
 * moniker and to its owner by user name, which is all the modelled actions compare.
 */
module Entities {
  import opened Wrappers

  /** The descriptive columns of a row (name, company, bio, …) by column name; only the mapper reads them. */
  type Details = map<string, string>

  /** A speaker row without its key: the camp it belongs to, its owner, and its own columns. */
  datatype Speaker = Speaker(camp: string, user: string, details: Details)

  /** A row of the speakers table: the key and the speaker. */
  datatype Row = Row(id: int, speaker: Speaker)

  /** A row of the talks table; `speakerId` is the foreign key to its speaker. */
  datatype Talk = Talk(id: int, speakerId: int, details: Details)

  /** A speaker as a query returns it: `talks` is `None` unless the query loads them. */
  datatype LoadedSpeaker = LoadedSpeaker(id: int, speaker: Speaker, talks: Option<seq<Talk>>)

  datatype Location = Location(
    address1: string, address2: string, address3: string,
    cityTown: string, stateProvince: string, postalCode: string, country: string)

  /** A camp row; `eventDate` is a day number and `length` a number of days. */
  datatype Camp = Camp(
    id: int, moniker: string, name: string, description: string,
    eventDate: int, length: int, location: Location)
}
