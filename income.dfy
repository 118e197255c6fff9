/** The income-to-social-class mapping of the submission server. */
module Income {
  const WorkingClass: string := "working_class"
  const MiddleClass: string := "middle_class"
  const CapitalistClass: string := "capitalist_class"
  const Unknown: string := "unknown"

  /** `classify`: three known income levels, everything else unknown. */
  function Classify(income: string): (social: string)
    ensures social == WorkingClass <==> income == "low"
    ensures social == MiddleClass <==> income == "middle"
    ensures social == CapitalistClass <==> income == "high"
    ensures social == Unknown <==> income != "low" && income != "middle" && income != "high"
  {
    if income == "low" then WorkingClass
    else if income == "middle" then MiddleClass
    else if income == "high" then CapitalistClass
    else Unknown
  }

  /** The label is always one of the four. */
  lemma ClassifyLabels(income: string)
    ensures Classify(income) in {WorkingClass, MiddleClass, CapitalistClass, Unknown}
  {
  }
}
