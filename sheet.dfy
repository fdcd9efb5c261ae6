/**
 * Spreadsheet values shared by the merge engine and the database loader:
 * cells as pandas reads them, and the six account-identity columns that key
 * every row of a company table.
 */
module Sheet {
  import opened Text

  /** One cell: NaN (an empty cell), text, or a whole number. */
  datatype Cell = Empty | Str(s: string) | Whole(n: int)

  /** `str(value)` of a cell (`str(NaN)` is "nan"). */
  function CellText(c: Cell): string
  {
    match c
    case Empty => "nan"
    case Str(s) => s
    case Whole(n) => IntToString(n)
  }

  /** The account identity: company name, company identifier, stock code,
      statement name, statement-section name and account name, already
      canonicalised to text. */
  datatype AccountKey = AccountKey(corpName: string, corpCode: string, stockCode: string,
                                   fsName: string, sjName: string, accountName: string)

  /** The key columns, in the order the scripts list them. */
  const KeyColumns: seq<string> := ["회사명", "고유번호", "stock_code", "fs_nm", "sj_nm", "account_nm"]

  /** The non-key cells of a row by column name. */
  type Row = map<string, Cell>

  /** A column that a row does not carry reads as NaN. */
  function Lookup(r: Row, c: string): Cell
  {
    if c in r then r[c] else Empty
  }
}
