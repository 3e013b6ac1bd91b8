/** The one-line description the model picker shows under a model name. */
module ModelDescription {
  import opened Text

  const Capable := "Most capable model, best for complex tasks"
  const Efficient := "Fast and efficient for general tasks"
  const Analytical := "Specialized in analysis and long-form content"
  const General := "Most Advanced AI model for various tasks"

  /** `getModelDescription`: the checks run in a fixed order, `32b`, then
      `7b`, then `latest`, so a size always takes precedence over the tag,
      wherever each occurs in the name; each description is given for
      exactly its case. */
  function Describe(model: string): (r: string)
    ensures r == Capable <==> Contains(model, "32b")
    ensures r == Efficient <==> !Contains(model, "32b") && Contains(model, "7b")
    ensures r == Analytical <==> !Contains(model, "32b") && !Contains(model, "7b") && Contains(model, "latest")
    ensures r == General <==> !Contains(model, "32b") && !Contains(model, "7b") && !Contains(model, "latest")
  {
    assert |Capable| == 42 && |Efficient| == 36 && |Analytical| == 45 && |General| == 40;
    if Contains(model, "32b") then Capable
    else if Contains(model, "7b") then Efficient
    else if Contains(model, "latest") then Analytical
    else General
  }

  /** A name carrying both a size and the `latest` tag is described by its
      size, and `32b` wins over `7b`. */
  lemma SizeBeforeTag(model: string)
    requires Contains(model, "latest")
    requires Contains(model, "7b") || Contains(model, "32b")
    ensures Describe(model) != Analytical
    ensures Contains(model, "32b") ==> Describe(model) == Capable
  {
  }
}
