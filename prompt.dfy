/** The prompt compiler (`prompt` and its template `PROMPT`). */
module Prompting {
  import opened Answers
  import opened Examples

  /** The fixed narrative of the template `PROMPT`: everything before its
      `{examples}` slot, worked examples included. */
  const Narrative: string := 
    "\n"
    + "Welcome to the World Graph game!\n"
    + "\n"
    + "The core idea of World Graph is to explore relationships.\n"
    + "We do this in an algebraic way. Specifically the addition operation.\n"
    + "\n"
    + "When two things are combined with `+` we get a third thing.\n"
    + "\n"
    + "For example:\n"
    + "% King + Woman = Queen\n"
    + "% Water + Fire = Steam\n"
    + "\n"
    + "Addition is commutative, so the order of the things does not matter.\n"
    + "% King + Woman = Queen\n"
    + "% Woman + King = Queen\n"
    + "\n"
    + "Not all combinations are sensible, these are undefined.\n"
    + "% Moss + Karl Marx = undefined\n"
    + "% Nuclear + Lipstick = undefined\n"
    + "\n"
    + "Using adjectives or adverbs is generally undesirable:\n"
    + "BAD:\n"
    + "% Sand + Water = Wet Sand\n"
    + "GOOD:\n"
    + "% Sand + Water = Mud\n"
    + "BAD:\n"
    + "% Water + Sea = More Water\n"
    + "GOOD:\n"
    + "% Water + Sea = Ocean\n"
    + "\n"
    + "Results never contain prose:\n"
    + "BAD:\n"
    + "% Fire + Water = A hot steam vapour\n"
    + "GOOD:\n"
    + "% Fire + Water = Steam\n"
    + "BAD:\n"
    + "% Knowledge + Power = The ability to control people\n"
    + "GOOD:\n"
    + "% Knowledge + Power = Wisdom\n"
    + "\n"
    + "Results never grow nominally:\n"
    + "BAD:\n"
    + "% Planet + Planet = Two Planets\n"
    + "GOOD:\n"
    + "% Planet + Planet = Solar System\n"
    + "\n"
    + "Countless interesting combinations are possible, and we are just scratching the surface.\n"
    + "In World Graph, you're only limited by your imagination.\n"
    + "\n"
    + "You'll soon realize that the game is not about the result, but the journey to get there.\n"
    + "Exciting relationships will be discovered, and you'll be surprised by the results.\n"
    + "\n"
    + "For example, you'll discover intriguing examples like:\n"

  /** The open cue that the oracle is expected to continue. */
  function Cue(a: string, b: string): string
  {
    "% " + a + " + " + b + " ="
  }

  /** Every context line is the cue of its operands followed by the stored
      answer, so the oracle is asked to continue the pattern the examples
      show. */
  lemma LineExtendsCue(t: Triple)
    ensures Line(t) == Cue(t.a, t.b) + " " + t.c
  {
  }

  /** `prompt`: the template's narrative, the rendered examples, a newline
      and the cue. The model takes the narrative as a parameter (the
      application passes `Narrative`); the values are substituted as they
      are. The prompt starts with the narrative followed by the examples and
      ends with the cue "% a + b =". */
  function Prompt(narrative: string, a: string, b: string, examples: string): (r: string)
    ensures narrative + examples <= r
    ensures var cue := Cue(a, b); |cue| <= |r| && r[|r| - |cue|..] == cue
  {
    assert (narrative + examples) + ("\n" + Cue(a, b)) == narrative + examples + "\n" + Cue(a, b);
    narrative + examples + "\n" + Cue(a, b)
  }
}
