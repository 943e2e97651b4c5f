/** The two presentation mappings of a task's priority: the colour class of
    its badge and the word shown in it. */
module Display {
  import opened Todos

  /** getPriorityColorClass: red, yellow and green for high, medium and low;
      gray when the task has no priority. */
  function PriorityColorClass(p: Option<Priority>): (c: string)
    ensures c == "text-gray-500" <==> p.None?
  {
    match p
    case Some(High) => "text-red-500"
    case Some(Medium) => "text-yellow-500"
    case Some(Low) => "text-green-500"
    case None => "text-gray-500"
  }

  /** The colour class tells all four cases apart. */
  lemma ColorClassesDistinct(p: Option<Priority>, q: Option<Priority>)
    ensures PriorityColorClass(p) == PriorityColorClass(q) <==> p == q
  {
  }

  /** The badge text: "Yüksek" for high, "Orta" for medium and "Düşük"
      otherwise, so an absent priority reads as low. */
  function PriorityLabel(p: Option<Priority>): (l: string)
    ensures p == Some(High) ==> l == "Yüksek"
    ensures p == Some(Medium) ==> l == "Orta"
    ensures l == "Düşük" <==> p != Some(High) && p != Some(Medium)
  {
    if p == Some(High) then "Yüksek" else if p == Some(Medium) then "Orta" else "Düşük"
  }

  /** The badge text tells the three stored priorities apart. */
  lemma LabelsDistinct(a: Priority, b: Priority)
    ensures PriorityLabel(Some(a)) == PriorityLabel(Some(b)) <==> a == b
  {
  }

  /** A task without a priority is labelled as low but opens in the edit form
      as medium: the badge agrees with the preselected priority exactly when
      the task has one. */
  lemma LabelAgreesWithEditForm(p: Option<Priority>)
    ensures PriorityLabel(p) == PriorityLabel(Some(DraftFromPriority(p))) <==> p.Some?
  {
  }
}
