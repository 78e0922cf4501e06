/** The shape check applied to every extracted record before it is stored, the
    record's JSON form, the demo-mode switch, and the choice between the
    language model's answer and the local extractor. */
module Validation {
  import opened Wrappers
  import opened Numbers
  import opened MedicalData

  /** A parsed JSON value. */
  datatype Json =
    | JNull
    | JBool(b: bool)
    | JNumber(n: Number)
    | JString(s: string)
    | JArray(items: seq<Json>)
    | JObject(fields: map<string, Json>)

  /** The four fields that must hold lists. */
  const ListFields: set<string> := {"biomarkers", "medications", "diagnoses", "recommendations"}

  predicate ArrayField(fields: map<string, Json>, key: string) {
    key in fields && fields[key].JArray?
  }

  /** `validateMedicalData`: an object whose `documentType` is a string and whose
      four list fields are arrays; nothing else is looked at. */
  function ValidateMedicalData(j: Json): (ok: bool)
    ensures ok <==> && j.JObject?
                    && "documentType" in j.fields && j.fields["documentType"].JString?
                    && forall k :: k in ListFields ==> ArrayField(j.fields, k)
  {
    && j.JObject?
    && "documentType" in j.fields && j.fields["documentType"].JString?
    && ArrayField(j.fields, "biomarkers")
    && ArrayField(j.fields, "medications")
    && ArrayField(j.fields, "diagnoses")
    && ArrayField(j.fields, "recommendations")
  }

  // ---------------------------------------------------------------- encoding

  function StatusText(s: Status): string {
    match s
    case Normal => "normal"
    case High => "high"
    case Low => "low"
  }

  function EncodeBiomarker(b: Biomarker): Json {
    JObject(map[
      "name" := JString(b.name),
      "value" := JNumber(b.value),
      "unit" := JString(b.unit),
      "referenceRange" := JString(b.referenceRange),
      "status" := JString(StatusText(b.status))])
  }

  function EncodeMedication(m: Medication): Json {
    JObject(map[
      "name" := JString(m.name),
      "dosage" := JString(m.dosage),
      "frequency" := JString(m.frequency),
      "reason" := JString(m.reason)])
  }

  function EncodeStrings(xs: seq<string>): (j: Json)
    ensures j.JArray? && |j.items| == |xs|
  {
    JArray(seq(|xs|, i requires 0 <= i < |xs| => JString(xs[i])))
  }

  /** The record as the JSON object it is stored and exchanged as. */
  function Encode(d: ExtractedMedicalData): (j: Json)
    ensures j.JObject? && j.fields.Keys == ListFields + {"documentType", "summary", "extractedAt"}
    ensures j.fields["documentType"] == JString(d.documentType) && j.fields["summary"] == JString(d.summary)
    ensures j.fields["biomarkers"].JArray? && |j.fields["biomarkers"].items| == |d.biomarkers|
    ensures j.fields["medications"].JArray? && |j.fields["medications"].items| == |d.medications|
    ensures j.fields["diagnoses"] == EncodeStrings(d.diagnoses)
    ensures j.fields["recommendations"] == EncodeStrings(d.recommendations)
  {
    JObject(map[
      "documentType" := JString(d.documentType),
      "summary" := JString(d.summary),
      "biomarkers" := JArray(seq(|d.biomarkers|, i requires 0 <= i < |d.biomarkers| => EncodeBiomarker(d.biomarkers[i]))),
      "medications" := JArray(seq(|d.medications|, i requires 0 <= i < |d.medications| => EncodeMedication(d.medications[i]))),
      "diagnoses" := EncodeStrings(d.diagnoses),
      "recommendations" := EncodeStrings(d.recommendations),
      "extractedAt" := JString(d.extractedAt)])
  }

  // ------------------------------------------------------------------ lemmas

  /** Every well-typed record passes the check, the local extractor's included. */
  lemma EncodedRecordsValid(d: ExtractedMedicalData)
    ensures ValidateMedicalData(Encode(d))
  {
  }

  /** Anything that is not an object is rejected. */
  lemma NonObjectsRejected(j: Json)
    requires !j.JObject?
    ensures !ValidateMedicalData(j)
  {
  }

  /** An object lacking one of the four list fields (medications, say) is rejected,
      and so is one holding anything but an array there. */
  lemma MissingListRejected(fields: map<string, Json>, key: string)
    requires key in ListFields && !ArrayField(fields, key)
    ensures !ValidateMedicalData(JObject(fields))
  {
  }

  /** A `documentType` that is present but not a string (a number, say) is rejected. */
  lemma NonStringTypeRejected(fields: map<string, Json>)
    requires "documentType" in fields && !fields["documentType"].JString?
    ensures !ValidateMedicalData(JObject(fields))
  {
  }

  /** Empty lists pass: only the shape is checked, not that anything was found. */
  lemma EmptyListsAccepted(documentType: string)
    ensures ValidateMedicalData(JObject(map[
      "documentType" := JString(documentType),
      "biomarkers" := JArray([]), "medications" := JArray([]),
      "diagnoses" := JArray([]), "recommendations" := JArray([])]))
  {
  }

  /** Fields other than the five checked ones (the summary, the timestamp) do not
      affect the verdict, nor does what the lists contain. */
  lemma OnlyShapeInspected(fields: map<string, Json>, key: string, v: Json)
    requires key != "documentType"
    requires key in ListFields ==> v.JArray? && key in fields && fields[key].JArray?
    ensures ValidateMedicalData(JObject(fields[key := v])) == ValidateMedicalData(JObject(fields))
  {
  }

  // -------------------------------------------------------------- demo mode

  const PlaceholderKey := "your-openai-api-key-here"

  /** A client exists only for a configured key: present, non-empty, and not the placeholder. */
  function ClientEnabled(apiKey: Option<string>): (enabled: bool)
    ensures enabled ==> apiKey.Some? && |apiKey.value| > 0
  {
    match apiKey
    case None => false
    case Some(k) => k != "" && k != PlaceholderKey
  }

  /** Demo mode: no key, an empty key and the placeholder all leave the client off; a real key turns it on. */
  lemma DemoModeKeys(k: string)
    ensures !ClientEnabled(None) && !ClientEnabled(Some("")) && !ClientEnabled(Some(PlaceholderKey))
    ensures k != "" && k != PlaceholderKey ==> ClientEnabled(Some(k))
  {
  }

  // ---------------------------------------------------------- the choice

  const ProcessingFailed := "Failed to process medical document. Please try again."

  /** The extraction step of document processing: the language model's parsed answer
      when a client is configured and the call succeeds (`remote`), the local
      extractor's record otherwise; the result must pass the shape check. */
  function ExtractionOutcome(apiKey: Option<string>, remote: Option<Json>, local: ExtractedMedicalData): (r: Result<Json, string>)
    ensures !ClientEnabled(apiKey) || remote.None? ==> r == Success(Encode(local))
    ensures r.Success? ==> ValidateMedicalData(r.value)
    ensures r.Failure? <==> ClientEnabled(apiKey) && remote.Some? && !ValidateMedicalData(remote.value)
    ensures r.Failure? ==> r.error == ProcessingFailed
    ensures ClientEnabled(apiKey) && remote.Some? && ValidateMedicalData(remote.value) ==> r == Success(remote.value)
  {
    var extracted := if ClientEnabled(apiKey) && remote.Some? then remote.value else Encode(local);
    EncodedRecordsValid(local);
    if ValidateMedicalData(extracted) then Success(extracted) else Failure(ProcessingFailed)
  }
}
