/** Plot titles (`get_plot_title` in process_improve/plotting.py).

    The caller's `main` only decides WHETHER there is a title: when it is not
    `None`, the title is built from the `prefix` and the model's own title
    text, and the text of `main` is thrown away. */
module Titles {
  import opened Wrappers

  /** Python truthiness of the model's title: `None` and `""` are both false. */
  predicate HasText(title: Option<string>)
  {
    title.Some? && title.value != ""
  }

  /** `get_plot_title(main, model, prefix)`, with `model.get_title()` passed
      in as `title` (a call into code outside this model). */
  function GetPlotTitle(main: Option<string>, title: Option<string>, prefix: string): (r: Option<string>)
    ensures r.None? <==> main.None?
    ensures r.Some? ==> prefix <= r.value
    ensures r.Some? && !HasText(title) ==> r.value == prefix
    ensures r.Some? && HasText(title) ==>
      |r.value| == |prefix| + 2 + |title.value| && r.value[|prefix|..] == ": " + title.value
  {
    if main.None? then None
    else if HasText(title) then Some(prefix + ": " + title.value)
    else Some(prefix)
  }

  /** Whatever text the caller passes as `main`, the title is the same. */
  lemma MainTextIsDiscarded(a: string, b: string, title: Option<string>, prefix: string)
    ensures GetPlotTitle(Some(a), title, prefix) == GetPlotTitle(Some(b), title, prefix)
  {
  }

  /** The Pareto plot asks for its title with `main` defaulting to
      "Pareto plot" and prefix 'Pareto plot'. */
  function ParetoTitle(main: Option<string>, title: Option<string>): (r: Option<string>)
    ensures main.Some? ==> r.Some? && "Pareto plot" <= r.value
    ensures main.None? ==> r.None?
  {
    GetPlotTitle(main, title, "Pareto plot")
  }

  /** The contour plot uses prefix 'Contour plot', but its `main` defaults to
      `None`, so by default a contour plot has no title at all. */
  function ContourTitle(main: Option<string>, title: Option<string>): (r: Option<string>)
    ensures main.Some? ==> r.Some? && "Contour plot" <= r.value
    ensures main.None? ==> r.None?
  {
    GetPlotTitle(main, title, "Contour plot")
  }
}
