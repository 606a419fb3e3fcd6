/** The two one-way XAML value converters. */
module Converters {
  import Wrappers
  import Text
  import Models

  /** Xamarin.Forms TextDecorations. */
  datatype TextDecorations = None | Underline | Strikethrough

  /** IsCompletedToTextDecoration.Convert: a boxed `true` is struck through; anything else, null included, is plain. */
  function IsCompletedConvert(value: Models.Object): (r: TextDecorations)
    ensures r == Strikethrough <==> value == Models.BoolObj(true)
    ensures r != Underline
  {
    if value.BoolObj? && value.b then Strikethrough else None
  }

  /** IsCompletedToTextDecoration.ConvertBack returns (does not throw) a NotImplementedException object. */
  function IsCompletedConvertBack(value: Models.Object): (r: Models.Object)
    ensures r == Models.ExceptionObj("NotImplementedException")
  {
    Models.ExceptionObj("NotImplementedException")
  }

  const EditTitle: string := "Edit List"
  const CreateTitle: string := "Create New List"

  /** CreateOrEditTitleConverter.Convert: a list with a non-blank title is being edited; anything else is a creation. */
  function TitleConvert(value: Models.Object): (r: string)
    ensures r == EditTitle <==> value.ListObj? && !Text.IsNullOrWhiteSpace(value.list.title)
    ensures r == EditTitle || r == CreateTitle
  {
    if value.ListObj? && !Text.IsNullOrWhiteSpace(value.list.title) then EditTitle else CreateTitle
  }

  /** CreateOrEditTitleConverter.ConvertBack always throws NotImplementedException. */
  function TitleConvertBack(value: string): (r: Wrappers.Result<Models.Object>)
    ensures r == Wrappers.Failure(Wrappers.NotImplemented)
  {
    Wrappers.Failure(Wrappers.NotImplemented)
  }

  /** The title converter shows "Edit List" exactly for a list whose title has a visible character. */
  lemma TitleConvertCases(l: Models.TodoList)
    ensures l.title.None? ==> TitleConvert(Models.ListObj(l)) == CreateTitle
    ensures l.title == Wrappers.Some("") ==> TitleConvert(Models.ListObj(l)) == CreateTitle
    ensures l.title.Some? && (exists i :: 0 <= i < |l.title.value| && !Text.IsWhiteSpace(l.title.value[i])) ==>
              TitleConvert(Models.ListObj(l)) == EditTitle
    ensures TitleConvert(Models.Null) == CreateTitle
  {
  }
}
