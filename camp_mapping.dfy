/**
 * CampMappingProfile: the Camp → CampModel map. `StartDate` is the event date, `EndDate` the
 * event date moved by `Length - 1` days; the other fields keep their values, the location's
 * flattened. Dates are day numbers; `Url` is what the URL resolver gives, taken as an argument.
 */
module CampMapping {
  import opened Entities

  /** The wire model of a camp. */
  datatype CampModel = CampModel(
    url: string, moniker: string, name: string,
    startDate: int, endDate: int, length: int, description: string,
    locationAddress1: string, locationAddress2: string, locationAddress3: string,
    locationCityTown: string, locationStateProvince: string, locationPostalCode: string,
    locationCountry: string)

  /** `Mapper.Map<CampModel>(camp)`, with `url` from the URL resolver. */
  function ToModel(camp: Camp, url: string): (m: CampModel)
    ensures m.startDate == camp.eventDate
    ensures m.length == camp.length && m.endDate - m.startDate + 1 == m.length
    ensures m.url == url && m.moniker == camp.moniker && m.name == camp.name && m.description == camp.description
    ensures m.locationAddress1 == camp.location.address1 && m.locationAddress2 == camp.location.address2
    ensures m.locationAddress3 == camp.location.address3 && m.locationCityTown == camp.location.cityTown
    ensures m.locationStateProvince == camp.location.stateProvince
    ensures m.locationPostalCode == camp.location.postalCode && m.locationCountry == camp.location.country
  {
    var loc := camp.location;
    CampModel(
      url, camp.moniker, camp.name,
      camp.eventDate, camp.eventDate + (camp.length - 1), camp.length, camp.description,
      loc.address1, loc.address2, loc.address3, loc.cityTown, loc.stateProvince, loc.postalCode, loc.country)
  }

  /** A one-day camp ends the day it starts. */
  lemma OneDayCampEndsOnStartDate(camp: Camp, url: string)
    requires camp.length == 1
    ensures ToModel(camp, url).endDate == ToModel(camp, url).startDate
  {
  }

  /** Each extra day of length moves the end date one day later and leaves the start date. */
  lemma ExtraDayMovesEndDate(camp: Camp, url: string)
    ensures var longer := ToModel(camp.(length := camp.length + 1), url);
      longer.startDate == ToModel(camp, url).startDate && longer.endDate == ToModel(camp, url).endDate + 1
  {
  }

  /** Nothing guards the length: a camp of length 0 ends the day before it starts. */
  lemma ZeroLengthEndsBeforeStart(camp: Camp, url: string)
    requires camp.length == 0
    ensures ToModel(camp, url).endDate == ToModel(camp, url).startDate - 1
  {
  }

  /** The end date is not before the start date exactly when the length is at least one day. */
  lemma EndNotBeforeStartIffLengthPositive(camp: Camp, url: string)
    ensures ToModel(camp, url).endDate >= ToModel(camp, url).startDate <==> camp.length >= 1
  {
  }
}
