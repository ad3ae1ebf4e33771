/** The rows the export endpoint writes: a header, then one row per user of
    the page. Rows are lists of fields; quoting, encoding and streaming are
    the CSV library's business and are not modelled. */
module Csv {
  import opened Php
  import opened Upstream

  type Row = seq<string>

  const Header: Row := ["Name", "Email", "Gender", "Nationality"]

  /** The four fields written for a user: full name, email, capitalised
      gender, nationality. */
  function UserRow(u: User): (r: Row)
    // one field per header column
    ensures |r| == |Header|
    // the name column: first name, one space, last name
    ensures |r[0]| == |u.name.first| + 1 + |u.name.last|
    ensures r[0][..|u.name.first|] == u.name.first && r[0][|u.name.first|] == ' '
            && r[0][|u.name.first| + 1..] == u.name.last
    // email and nationality are copied unchanged
    ensures r[1] == u.email && r[3] == u.nationality
    // the gender passed through `ucfirst`
    ensures r[2] == Ucfirst(u.gender)
  {
    [u.name.first + " " + u.name.last, u.email, Ucfirst(u.gender), u.nationality]
  }

  /** The data rows, one per user, in the users' order. */
  function DataRows(users: seq<User>): (rows: seq<Row>)
    ensures |rows| == |users|
    ensures forall i :: 0 <= i < |users| ==> rows[i] == UserRow(users[i])
  {
    if users == [] then [] else [UserRow(users[0])] + DataRows(users[1..])
  }

  /** The whole table: the header row followed by one row per user. */
  function Table(users: seq<User>): (rows: seq<Row>)
    ensures |rows| == 1 + |users|
    ensures rows[0] == Header
    ensures forall i :: 0 <= i < |users| ==> rows[i + 1] == UserRow(users[i])
  {
    [Header] + DataRows(users)
  }

  /** Every row has the header's four columns, and the name column joins the
      first and last name with one space. */
  lemma TableShape(users: seq<User>)
    ensures forall r :: r in Table(users) ==> |r| == |Header|
    ensures forall i :: 1 <= i < |Table(users)| ==>
              Table(users)[i][0] == users[i - 1].name.first + " " + users[i - 1].name.last
  {
  }

  /** The export's stream callback: insert the header, then insert one row per
      user in a `foreach`. */
  method WriteTable(users: seq<User>) returns (rows: seq<Row>)
    ensures rows == Table(users)
  {
    rows := [Header];
    for i := 0 to |users|
      invariant |rows| == 1 + i
      invariant rows[0] == Header
      invariant forall j :: 0 <= j < i ==> rows[j + 1] == UserRow(users[j])
    {
      rows := rows + [UserRow(users[i])];
    }
    forall j | 1 <= j < |rows| ensures rows[j] == Table(users)[j] {
      assert rows[(j - 1) + 1] == UserRow(users[j - 1]);
    }
  }
}
