/** The exceptions raised along the simulator's pipeline and the
    success/failure wrappers the model returns instead of raising. */
module Outcomes {

  /** One constructor per check that makes the code raise. */
  datatype Error =
    | UnknownFace        // Die.change_weight: the face is not in the face column
    | DegenerateWeights  // Die.roll: weight / sum(weight) is not a probability vector
    | NegativeCount      // Die.roll: a negative number of draws
    | InvalidForm        // Game.show: form is neither "wide" nor "narrow"
    | DuplicateEntries   // pivot: a (roll number, die number) pair occurs twice
    | NoRolls            // Analyzer.jackpot: the wide table has no first row

  datatype Result<+R> = Ok(value: R) | Err(error: Error)

  datatype Option<+T> = None | Some(value: T)
}
