/** The medical document records and the two classifications made from an
    uploaded file's name and MIME type. */
module MedicalData {
  import opened Wrappers
  import opened Text
  import opened Numbers
  import opened Records

  datatype Status = Normal | High | Low

  /** A lab measurement; `referenceRange` is the text the status was judged against. */
  datatype Biomarker = Biomarker(name: string, value: Number, unit: string, referenceRange: string, status: Status)

  /** A medication; an empty `dosage` or `frequency` stands for a missing one (both are falsy). */
  datatype Medication = Medication(name: string, dosage: string, frequency: string, reason: string)

  datatype ExtractedMedicalData = ExtractedMedicalData(
    documentType: string,
    summary: string,
    biomarkers: seq<Biomarker>,
    medications: seq<Medication>,
    diagnoses: seq<string>,
    recommendations: seq<string>,
    extractedAt: string)

  datatype FileType = Image | Pdf | LabReport
  datatype ProcessingStatus = Processing | Completed | Failed

  datatype MedicalDocument = MedicalDocument(
    id: string,
    uploadDate: Millis,
    userId: string,
    fileName: string,
    fileType: FileType,
    fileSize: nat,
    mimeType: string,
    processingStatus: ProcessingStatus,
    extractedData: Option<ExtractedMedicalData>)

  /** The stored file type: images by MIME prefix, PDFs by exact MIME type, anything else a lab report. */
  function FileTypeOf(mime: string): (t: FileType)
    ensures t == Image <==> StartsWith(mime, "image/")
    ensures t == Pdf <==> !StartsWith(mime, "image/") && mime == "application/pdf"
    ensures t == LabReport <==> !StartsWith(mime, "image/") && mime != "application/pdf"
  {
    if StartsWith(mime, "image/") then Image
    else if mime == "application/pdf" then Pdf
    else LabReport
  }

  /** A PDF is never taken for an image, and every image MIME type is. */
  lemma FileTypeExamples(sub: string)
    ensures FileTypeOf("application/pdf") == Pdf
    ensures FileTypeOf("image/" + sub) == Image
    ensures FileTypeOf("") == LabReport
  {
    assert !StartsWith("application/pdf", "image/") by {
      assert "application/pdf"[0] != "image/"[0];
    }
    assert ("image/" + sub)[..6] == "image/";
  }

  /** The simulated report chosen for a file without readable text. */
  datatype Scenario = Lab | Cardiac | Diabetes | Nutrition | General

  /** The keyword groups, in the order they are tried. */
  predicate LabName(n: string) { Contains(n, "blood") || Contains(n, "lab") }
  predicate CardiacName(n: string) { Contains(n, "heart") || Contains(n, "cardiac") }
  predicate DiabetesName(n: string) { Contains(n, "diabetes") || Contains(n, "glucose") }
  predicate NutritionName(n: string) { Contains(n, "vitamin") || Contains(n, "nutrition") }

  /** The first keyword group found in the lower-cased file name wins; otherwise the general report. */
  function ClassifyScenario(fileName: string): (sc: Scenario)
    ensures var n := ToLower(fileName);
      && (sc == Lab <==> LabName(n))
      && (sc == Cardiac <==> !LabName(n) && CardiacName(n))
      && (sc == Diabetes <==> !LabName(n) && !CardiacName(n) && DiabetesName(n))
      && (sc == Nutrition <==> !LabName(n) && !CardiacName(n) && !DiabetesName(n) && NutritionName(n))
      && (sc == General <==> !LabName(n) && !CardiacName(n) && !DiabetesName(n) && !NutritionName(n))
  {
    var n := ToLower(fileName);
    if LabName(n) then Lab
    else if CardiacName(n) then Cardiac
    else if DiabetesName(n) then Diabetes
    else if NutritionName(n) then Nutrition
    else General
  }

  /** Case does not matter: a name and its lower-cased form get the same report. */
  lemma ClassifyIgnoresCase(fileName: string)
    ensures ClassifyScenario(ToLower(fileName)) == ClassifyScenario(fileName)
  {
    ToLowerIdempotent(fileName);
  }

  /** The first matching group wins: a blood test about glucose is still a lab report. */
  lemma EarlierGroupWins(prefix: string, suffix: string)
    ensures ClassifyScenario(prefix + "blood" + suffix) == Lab
  {
    var s := prefix + "blood" + suffix;
    var n := ToLower(s);
    assert n[|prefix|..|prefix| + 5] == "blood";
    assert OccursAt(n, "blood", |prefix|);
    OccursImpliesContains(n, "blood", |prefix|);
  }
}
