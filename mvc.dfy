/** What a controller action hands back to the framework. */
module Mvc {
  /** `ModelState.AddModelError(key, message)`; the empty key is a form-wide error. */
  datatype ModelError = ModelError(key: string, message: string)

  datatype ActionResult =
      /** `RedirectToAction(nameof(Index))`. */
    | RedirectToIndex
      /** `NotFound()`. */
    | NotFound
      /**
       * `View(model)`: the form shown again with the errors the action
       * itself added. Errors the annotations produced during binding are
       * part of the model state too but are not listed here.
       */
    | Redisplay(errors: seq<ModelError>)
      /** An exception the action does not catch escapes to the framework. */
    | Unhandled

  /** The messages both create actions attach when a referenced patient or doctor is unusable. */
  const PatientNotFound: string := "Пацієнт не знайдений"
  const DoctorUnavailable: string := "Лікар не знайдений або не активний"
}
