/** The response table of `load_chatbot_data_from_db` (app.py:150-160): the
    dictionary comprehension of app.py:156 over the `(input, response)` rows
    of `chatbot_training_data`. The rows are a parameter here. */
module Knowledge {

  /** `{row[0]: row[1] for row in rows}`: later rows overwrite earlier ones. */
  function ResponseTable(rows: seq<(string, string)>): (table: map<string, string>)
    ensures table.Keys == set k | 0 <= k < |rows| :: rows[k].0
  {
    if |rows| == 0 then map[]
    else
      var last := rows[|rows| - 1];
      var earlier := ResponseTable(rows[..|rows| - 1]);
      assert (set k | 0 <= k < |rows| :: rows[k].0)
        == (set k | 0 <= k < |rows| - 1 :: rows[k].0) + {last.0};
      earlier[last.0 := last.1]
  }

  /** An input maps to the response of the last row that has it. */
  lemma {:induction false} LastRowWins(rows: seq<(string, string)>, i: nat)
    requires i < |rows|
    requires forall j :: i < j < |rows| ==> rows[j].0 != rows[i].0
    ensures rows[i].0 in ResponseTable(rows) && ResponseTable(rows)[rows[i].0] == rows[i].1
  {
    if i < |rows| - 1 {
      LastRowWins(rows[..|rows| - 1], i);
    }
  }
}
