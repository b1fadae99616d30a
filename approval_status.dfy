/** The approval status codes of a ledger row and their display names. */
module ApprovalStatusConstants {

  const Pending: int := 1
  const Approved: int := 2
  const Rejected: int := 3

  /** The display name of a status code; any code outside the three known ones is "Unknown". */
  function GetStatusName(statusCode: int): (name: string)
    ensures statusCode == Pending <==> name == "Pending Approval"
    ensures statusCode == Approved <==> name == "Approved"
    ensures statusCode == Rejected <==> name == "Rejected"
    ensures statusCode !in {Pending, Approved, Rejected} <==> name == "Unknown"
  {
    if statusCode == Pending then "Pending Approval"
    else if statusCode == Approved then "Approved"
    else if statusCode == Rejected then "Rejected"
    else "Unknown"
  }

  /** The three known codes are distinct and receive distinct names, none of them "Unknown". */
  lemma StatusNamesDistinct(a: int, b: int)
    requires a in {Pending, Approved, Rejected} && b in {Pending, Approved, Rejected}
    ensures GetStatusName(a) != "Unknown"
    ensures GetStatusName(a) == GetStatusName(b) <==> a == b
  {
  }
}
