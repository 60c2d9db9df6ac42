/**
 * `ColumnMapper` (example/src/mapper.tsx): two selects that choose a
 * dataset's text column (`choice1`) and its embeddings column (`choice2`).
 * Each change replaces one choice; once both are non-empty, `onChange`
 * receives them, modelled as the handler's return value.
 */
module ColumnMapper {
  import opened Wrappers

  /** The `values` state. */
  datatype ColumnChoice = ColumnChoice(choice1: string, choice2: string)

  /** `value || ''` for a `string | undefined`. */
  function OrEmpty(value: Option<string>): (r: string)
    ensures value.Some? ==> r == value.value
    ensures value.None? ==> r == ""
  {
    if value.Some? && value.value != "" then value.value else ""
  }

  /** The state after `onValueChange(value, fieldType)`: 'Embeddings' replaces `choice2`, any other field `choice1`. */
  function Updated(values: ColumnChoice, value: string, fieldType: string): ColumnChoice {
    if fieldType == "Embeddings" then values.(choice2 := value) else values.(choice1 := value)
  }

  /** The `onChange(choice1, choice2)` call the updated state triggers, if any. */
  function Fired(values: ColumnChoice): Option<(string, string)> {
    if values.choice1 != "" && values.choice2 != "" then Some((values.choice1, values.choice2)) else None
  }

  /**
   * One change replaces exactly the choice its field names, and fires
   * `onChange` with (column, embeddings), in that order, exactly when both
   * choices are then non-empty; clearing a choice never fires.
   */
  lemma ChangeReplacesOneChoice(values: ColumnChoice, value: string, fieldType: string)
    ensures fieldType == "Embeddings" ==>
              Updated(values, value, fieldType).choice2 == value && Updated(values, value, fieldType).choice1 == values.choice1
    ensures fieldType != "Embeddings" ==>
              Updated(values, value, fieldType).choice1 == value && Updated(values, value, fieldType).choice2 == values.choice2
    ensures value == "" ==> Fired(Updated(values, value, fieldType)) == None
    ensures Fired(Updated(values, value, fieldType)).Some? <==>
              Updated(values, value, fieldType).choice1 != "" && Updated(values, value, fieldType).choice2 != ""
  {
  }

  /** The state of one `ColumnMapper`. */
  class Mapper {
    var values: ColumnChoice

    /** The initial choices are `value1 || ''` and `value2 || ''`. */
    constructor (value1: Option<string>, value2: Option<string>)
      ensures values == ColumnChoice(OrEmpty(value1), OrEmpty(value2))
    {
      values := ColumnChoice(OrEmpty(value1), OrEmpty(value2));
    }

    /** `onValueChange(value, fieldType)`: the new state, and the `onChange` arguments when it fires. */
    method OnValueChange(value: string, fieldType: string) returns (fired: Option<(string, string)>)
      modifies this
      ensures values == Updated(old(values), value, fieldType)
      ensures fired == Fired(values)
      ensures fired.Some? ==> fired.value == (values.choice1, values.choice2)
    {
      values := Updated(values, value, fieldType);
      fired := Fired(values);
    }
  }

  /** Choosing a column and then embeddings, from empty choices, fires once, on the second change. */
  method ColumnThenEmbeddings(column: string, embeddings: string)
    requires column != "" && embeddings != ""
  {
    var mapper := new Mapper(None, None);
    var first := mapper.OnValueChange(column, "Column");
    assert first == None;
    var second := mapper.OnValueChange(embeddings, "Embeddings");
    assert second == Some((column, embeddings));
  }
}
