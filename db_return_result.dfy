/** The result row that the application's stored procedures return. */
module DbReturnResult {
  import opened Wrappers
  import opened Text

  /** ResultType and ResultMessage may be NULL in the database, hence the Option. */
  datatype DbReturnResult = DbReturnResult(
    resultVal: int,
    resultType: Option<string>,
    resultMessage: Option<string>,
    returnPassword: Option<string>)
  {
    /** A positive value and a type that reads "success" in any letter case. */
    predicate IsSuccess() {
      resultVal > 0 && resultType.Some? && ToLower(resultType.value) == "success"
    }
  }

  /** IsSuccess fails on a NULL type or a non-positive value, whatever the other field holds. */
  lemma IsSuccessNeedsBoth(r: DbReturnResult)
    ensures r.resultType.None? ==> !r.IsSuccess()
    ensures r.resultVal <= 0 ==> !r.IsSuccess()
  {
  }

  /** Any spelling of "success" that differs only in letter case is accepted the same way. */
  lemma {:induction false} IsSuccessIgnoresCase(v: int, t: string, msg: Option<string>, pw: Option<string>)
    requires EqualsIgnoreCase(t, "success")
    ensures DbReturnResult(v, Some(t), msg, pw).IsSuccess() <==> v > 0
  {
    assert ToLower("success") == "success" by {
      var l := ToLower("success");
      assert forall i :: 0 <= i < 7 ==> l[i] == "success"[i];
    }
  }

  /** The accepted spellings include "Success" and "SUCCESS". */
  lemma SuccessSpellings(v: int)
    requires v > 0
    ensures DbReturnResult(v, Some("success"), None, None).IsSuccess()
    ensures DbReturnResult(v, Some("Success"), None, None).IsSuccess()
    ensures DbReturnResult(v, Some("SUCCESS"), None, None).IsSuccess()
    ensures !DbReturnResult(v, Some("failure"), None, None).IsSuccess()
  {
    var a, b, c, d := ToLower("success"), ToLower("Success"), ToLower("SUCCESS"), ToLower("failure");
    assert a == "success" by { assert forall i :: 0 <= i < 7 ==> a[i] == "success"[i]; }
    assert b == "success" by { assert forall i :: 0 <= i < 7 ==> b[i] == "success"[i]; }
    assert c == "success" by { assert forall i :: 0 <= i < 7 ==> c[i] == "success"[i]; }
    assert d[0] == 'f';
  }
}
