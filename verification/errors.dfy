/** The exceptions the analysis code can raise, one constructor per raising expression. */
module Errors {

  datatype Error =
      /** `proba.max()` on a probability row with no entries (numpy ValueError). */
    | EmptyProbabilities
      /** `model.classes_[np.argmax(proba)]` with an index past the class list (IndexError). */
    | ClassIndexOutOfRange
      /** `CLASS_LABEL_MAP[pred_label]` with a class that is not a key (KeyError). */
    | UnknownClassLabel
      /** `value_counts().idxmax()` over a batch with no rows (pandas ValueError). */
    | EmptyBatch
}
