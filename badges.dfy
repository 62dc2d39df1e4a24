/** The badge variants the list pages choose from, and the priority mapping that the
    project list and the task list share. */
module Badges {

  /** The `variant` of a badge. */
  datatype BadgeVariant = Default | Secondary | Outline | Destructive

  /** `getPriorityColor`: critical is destructive, high is the default variant, medium
      is secondary, and low or any other string is outlined. */
  function PriorityVariant(priority: string): (v: BadgeVariant)
    ensures v == Destructive <==> priority == "critical"
    ensures v == Default <==> priority == "high"
    ensures v == Secondary <==> priority == "medium"
    ensures v == Outline <==> priority != "critical" && priority != "high" && priority != "medium"
  {
    match priority
    case "critical" => Destructive
    case "high" => Default
    case "medium" => Secondary
    case "low" => Outline
    case _ => Outline
  }

  /** The four priorities a record can carry get four different badges. */
  lemma PriorityVariantsDistinct()
    ensures PriorityVariant("low") == Outline
    ensures |{PriorityVariant("low"), PriorityVariant("medium"), PriorityVariant("high"),
              PriorityVariant("critical")}| == 4
  {
    var s := {PriorityVariant("low"), PriorityVariant("medium"), PriorityVariant("high"),
              PriorityVariant("critical")};
    assert s == {Outline, Secondary, Default, Destructive};
    assert {Outline, Secondary, Default, Destructive} == {Outline} + {Secondary} + {Default} + {Destructive};
  }
}
