/** The optional value used for the nullable variables of the sketchpad
    (`toolPreview`, `currentSticker`) and for the result of the sticker prompt. */
module Options {
  datatype Option<+T> = None | Some(value: T)
}
