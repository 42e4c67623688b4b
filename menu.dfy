/** `OVERWRITE_QUESTION`: the single-select prompt offered when a target
    file already exists. */
module Menu {
  import opened Paths

  /** A prompt answer `{ action, all }`: what to do with this file, and
      whether to do it to every remaining conflict of the run. */
  datatype Action = Action(action: string, all: bool)

  datatype Choice = Choice(title: string, value: Action)

  /** The `prompts` question object `{ type, name, message, choices }`. */
  datatype Question = Question(kind: string, name: string, message: string, choices: seq<Choice>)

  const Titles: seq<string> := ["Skip", "Merge", "Overwrite"]

  /** `{ value: { action: title.toLowerCase(), all: false }, title }`. */
  function BaseChoice(title: string): Choice {
    Choice(title, Action(Lower(title), false))
  }

  /** `{ title: `${obj.title} All`, value: { action: obj.value.action, all: true } }`. */
  function AllChoice(base: Choice): Choice {
    Choice(base.title + " All", Action(base.value.action, true))
  }

  /** The question: the three base choices, then each again as its "All" variant. */
  function OverwriteQuestion(message: string): (q: Question)
    ensures q.kind == "select" && q.name == "action" && q.message == message
    ensures |q.choices| == 6
    ensures q.choices[0] == Choice("Skip", Action("skip", false))
    ensures q.choices[1] == Choice("Merge", Action("merge", false))
    ensures q.choices[2] == Choice("Overwrite", Action("overwrite", false))
    ensures forall i :: 0 <= i < 3 ==>
      q.choices[i + 3] == Choice(q.choices[i].title + " All", Action(q.choices[i].value.action, true))
  {
    var base := seq(|Titles|, i requires 0 <= i < |Titles| => BaseChoice(Titles[i]));
    assert Lower("Skip") == "skip";
    assert Lower("Merge") == "merge";
    assert Lower("Overwrite") == "overwrite";
    Question("select", "action", message,
      base + seq(|base|, i requires 0 <= i < |base| => AllChoice(base[i])))
  }

  /** Every combination of the three actions with both values of `all` is on offer. */
  lemma EveryActionOffered(message: string, verb: string, all: bool)
    requires verb in ["skip", "merge", "overwrite"]
    ensures exists i :: 0 <= i < 6 && OverwriteQuestion(message).choices[i].value == Action(verb, all)
  {
    var q := OverwriteQuestion(message);
    var i := if verb == "skip" then 0 else if verb == "merge" then 1 else 2;
    var j := if all then i + 3 else i;
    assert q.choices[j].value == Action(verb, all);
  }
}
