/**
 * The culture-dependent number conversions the engine calls: double.Parse and
 * double.TryParse (here `parse`, None where they fail) and double.ToString (`show`).
 * They are parameters of the model; the model fixes nothing about what they compute.
 */
module Numbers {
  import opened Wrappers

  datatype NumberCulture = NumberCulture(parse: string -> Option<real>, show: real -> string)
}
