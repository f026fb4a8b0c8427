/** The JSON forms of the currency, medical and licence reports written by
    the static-site export: every date becomes its ISO text, an absent date
    stays absent, and every other field is copied. */
module Serializers {
  import opened Wrappers
  import opened Calendar
  import opened DateFormat
  import opened Currency

  /** `d.isoformat() if d else None`. */
  function IsoOrNone(d: Option<Date>): (r: Option<string>)
    ensures r.None? <==> d.None?
  {
    match d
    case None => None
    case Some(x) => Some(IsoFormat(x))
  }

  /** Reads an optional ISO date back. */
  function ParseIsoOrNone(s: Option<string>): Option<Option<Date>> {
    match s
    case None => Some(None)
    case Some(t) =>
      match ParseIso(t)
      case None => None
      case Some(d) => Some(Some(d))
  }

  /** A date Python can hold: year 1 to 9999. */
  predicate InPythonRange(d: Option<Date>) {
    d.Some? ==> 1 <= d.value.year <= 9999
  }

  /** Writing an optional date and reading it back gives the date. */
  lemma IsoOrNoneRoundTrip(d: Option<Date>)
    requires InPythonRange(d)
    ensures ParseIsoOrNone(IsoOrNone(d)) == Some(d)
  {
    if d.Some? {
      IsoRoundTrip(d.value);
    }
  }

  // ---------------------------------------------------------------------
  // Passenger currency

  datatype CurrencyJson = CurrencyJson(
    dayCurrent: bool,
    dayLandings: nat,
    dayExpiry: Option<string>,
    nightCurrent: bool,
    nightLandings: nat,
    nightExpiry: Option<string>)

  /** `_serialize_currency`. */
  function SerializeCurrency(c: PassengerCurrency): (j: CurrencyJson)
    ensures j.dayCurrent == c.dayCurrent && j.dayLandings == c.dayLandings
    ensures j.nightCurrent == c.nightCurrent && j.nightLandings == c.nightLandings
    ensures j.dayExpiry.None? <==> c.dayExpiry.None?
    ensures j.nightExpiry.None? <==> c.nightExpiry.None?
    ensures c.dayExpiry.Some? ==> j.dayExpiry.value == IsoFormat(c.dayExpiry.value)
    ensures c.nightExpiry.Some? ==> j.nightExpiry.value == IsoFormat(c.nightExpiry.value)
  {
    CurrencyJson(c.dayCurrent, c.dayLandings, IsoOrNone(c.dayExpiry),
                 c.nightCurrent, c.nightLandings, IsoOrNone(c.nightExpiry))
  }

  function ReadCurrency(j: CurrencyJson): Option<PassengerCurrency> {
    var day, night := ParseIsoOrNone(j.dayExpiry), ParseIsoOrNone(j.nightExpiry);
    if day.None? || night.None? then None
    else Some(PassengerCurrency(j.dayCurrent, j.dayLandings, day.value,
                                j.nightCurrent, j.nightLandings, night.value))
  }

  /** Nothing is lost in the currency report. */
  lemma CurrencyRoundTrip(c: PassengerCurrency)
    requires InPythonRange(c.dayExpiry) && InPythonRange(c.nightExpiry)
    ensures ReadCurrency(SerializeCurrency(c)) == Some(c)
  {
    IsoOrNoneRoundTrip(c.dayExpiry);
    IsoOrNoneRoundTrip(c.nightExpiry);
  }

  // ---------------------------------------------------------------------
  // Medical

  /** The keys the medical serializer reads. */
  datatype MedicalReport = MedicalReport(
    hasMedical: bool,
    originalClass: Option<int>,
    currentClass: Option<int>,
    examinationDate: Option<Date>,
    expiry: Option<Date>,
    firstClassExpiry: Option<Date>,
    secondClassExpiry: Option<Date>,
    thirdClassExpiry: Option<Date>,
    daysRemaining: Option<int>,
    status: string)

  datatype MedicalJson = MedicalJson(
    hasMedical: bool,
    originalClass: Option<int>,
    currentClass: Option<int>,
    examinationDate: Option<string>,
    expiry: Option<string>,
    firstClassExpiry: Option<string>,
    secondClassExpiry: Option<string>,
    thirdClassExpiry: Option<string>,
    daysRemaining: Option<int>,
    status: string)

  /** `_serialize_medical`. */
  function SerializeMedical(m: MedicalReport): (j: MedicalJson)
    ensures j.hasMedical == m.hasMedical && j.status == m.status && j.daysRemaining == m.daysRemaining
    ensures j.originalClass == m.originalClass && j.currentClass == m.currentClass
    ensures j.examinationDate.None? <==> m.examinationDate.None?
    ensures j.expiry.None? <==> m.expiry.None?
    ensures j.firstClassExpiry.None? <==> m.firstClassExpiry.None?
    ensures j.secondClassExpiry.None? <==> m.secondClassExpiry.None?
    ensures j.thirdClassExpiry.None? <==> m.thirdClassExpiry.None?
    ensures m.examinationDate.Some? ==> j.examinationDate.value == IsoFormat(m.examinationDate.value)
    ensures m.expiry.Some? ==> j.expiry.value == IsoFormat(m.expiry.value)
    ensures m.firstClassExpiry.Some? ==> j.firstClassExpiry.value == IsoFormat(m.firstClassExpiry.value)
    ensures m.secondClassExpiry.Some? ==> j.secondClassExpiry.value == IsoFormat(m.secondClassExpiry.value)
    ensures m.thirdClassExpiry.Some? ==> j.thirdClassExpiry.value == IsoFormat(m.thirdClassExpiry.value)
  {
    MedicalJson(m.hasMedical, m.originalClass, m.currentClass,
                IsoOrNone(m.examinationDate), IsoOrNone(m.expiry),
                IsoOrNone(m.firstClassExpiry), IsoOrNone(m.secondClassExpiry),
                IsoOrNone(m.thirdClassExpiry), m.daysRemaining, m.status)
  }

  function ReadMedical(j: MedicalJson): Option<MedicalReport> {
    var exam, exp := ParseIsoOrNone(j.examinationDate), ParseIsoOrNone(j.expiry);
    var first, second := ParseIsoOrNone(j.firstClassExpiry), ParseIsoOrNone(j.secondClassExpiry);
    var third := ParseIsoOrNone(j.thirdClassExpiry);
    if exam.None? || exp.None? || first.None? || second.None? || third.None? then None
    else Some(MedicalReport(j.hasMedical, j.originalClass, j.currentClass, exam.value, exp.value,
                            first.value, second.value, third.value, j.daysRemaining, j.status))
  }

  predicate MedicalInRange(m: MedicalReport) {
    InPythonRange(m.examinationDate) && InPythonRange(m.expiry) &&
    InPythonRange(m.firstClassExpiry) && InPythonRange(m.secondClassExpiry) &&
    InPythonRange(m.thirdClassExpiry)
  }

  /** Nothing is lost in the medical report. */
  lemma MedicalRoundTrip(m: MedicalReport)
    requires MedicalInRange(m)
    ensures ReadMedical(SerializeMedical(m)) == Some(m)
  {
    IsoOrNoneRoundTrip(m.examinationDate);
    IsoOrNoneRoundTrip(m.expiry);
    IsoOrNoneRoundTrip(m.firstClassExpiry);
    IsoOrNoneRoundTrip(m.secondClassExpiry);
    IsoOrNoneRoundTrip(m.thirdClassExpiry);
  }

  // ---------------------------------------------------------------------
  // Licence

  /** The keys the licence serializer reads. */
  datatype LicenseReport = LicenseReport(
    hasLicense: bool,
    licenseType: Option<string>,
    expiration: Option<Date>,
    daysRemaining: Option<int>,
    status: string)

  datatype LicenseJson = LicenseJson(
    hasLicense: bool,
    licenseType: Option<string>,
    expiration: Option<string>,
    daysRemaining: Option<int>,
    status: string)

  /** `_serialize_license`. */
  function SerializeLicense(l: LicenseReport): (j: LicenseJson)
    ensures j.hasLicense == l.hasLicense && j.licenseType == l.licenseType
    ensures j.daysRemaining == l.daysRemaining && j.status == l.status
    ensures j.expiration.None? <==> l.expiration.None?
    ensures l.expiration.Some? ==> j.expiration.value == IsoFormat(l.expiration.value)
  {
    LicenseJson(l.hasLicense, l.licenseType, IsoOrNone(l.expiration), l.daysRemaining, l.status)
  }

  function ReadLicense(j: LicenseJson): Option<LicenseReport> {
    var exp := ParseIsoOrNone(j.expiration);
    if exp.None? then None
    else Some(LicenseReport(j.hasLicense, j.licenseType, exp.value, j.daysRemaining, j.status))
  }

  /** Nothing is lost in the licence report. */
  lemma LicenseRoundTrip(l: LicenseReport)
    requires InPythonRange(l.expiration)
    ensures ReadLicense(SerializeLicense(l)) == Some(l)
  {
    IsoOrNoneRoundTrip(l.expiration);
  }
}
