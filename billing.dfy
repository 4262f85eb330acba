/** The billing-method management screen (src/components/billing/billing-management.tsx):
    a list of methods that the add and delete handlers replace. Its kinds are the
    screen's own ("session" where the store says "fixed"). */
module BillingManagement {
  import opened Common
  import opened Text
  import opened UiLists

  datatype UiBillingKind = HourlyKind | SessionKind | PackageKind

  datatype UiBillingMethod = UiBillingMethod(
    id: string, name: string, kind: UiBillingKind, rate: int,
    packageHours: Option<int>, overageRate: Option<int>, description: string)

  /** What the new-method dialog hands back: a record without id. */
  datatype MethodDraft = MethodDraft(
    name: string, kind: UiBillingKind, rate: int,
    packageHours: Option<int>, overageRate: Option<int>, description: string)

  /** The records the screen starts with. */
  const MockBillingMethods: seq<UiBillingMethod> := [
    UiBillingMethod("1", "标准计时", HourlyKind, 30, None, None, "按照使用时间计费，适用于大多数台桌"),
    UiBillingMethod("2", "大厅计次", SessionKind, 40, None, None, "按照游戏局数计费，不限制时间"),
    UiBillingMethod("3", "包间套餐4小时", PackageKind, 80, Some(4), Some(20), "包间4小时套餐，超出后按每小时20元计费"),
    UiBillingMethod("4", "会员计时", HourlyKind, 25, None, None, "会员专享优惠计时价格"),
    UiBillingMethod("5", "午市套餐", PackageKind, 60, Some(3), Some(25), "中午12点-15点特惠套餐")
  ]

  function IdOf(m: UiBillingMethod): string { m.id }

  function WithId(d: MethodDraft, id: string): UiBillingMethod {
    UiBillingMethod(id, d.name, d.kind, d.rate, d.packageHours, d.overageRate, d.description)
  }

  /** The dialog's rule: a method that is not a package has no package hours and no
      overage rate. */
  predicate PackageFieldsRule(kind: UiBillingKind, packageHours: Option<int>, overageRate: Option<int>) {
    kind != PackageKind ==> packageHours.None? && overageRate.None?
  }

  predicate AllFollowPackageRule(ms: seq<UiBillingMethod>) {
    forall i :: 0 <= i < |ms| ==> PackageFieldsRule(ms[i].kind, ms[i].packageHours, ms[i].overageRate)
  }

  lemma MockBillingMethodsWellFormed()
    ensures AllFollowPackageRule(MockBillingMethods)
    ensures IdsArePositions(MockBillingMethods, IdOf) && UniqueKeys(MockBillingMethods, IdOf)
  {
    assert DecimalString(1) == "1" && DecimalString(2) == "2" && DecimalString(3) == "3";
    assert DecimalString(4) == "4" && DecimalString(5) == "5";
    PositionalIds(MockBillingMethods, IdOf, MockBillingMethods[0]);
  }

  /** From the initial methods: delete "2", then add one. The new method gets id "5",
      which 午市套餐 still carries. */
  lemma DeleteThenAddDuplicatesId(d: MethodDraft)
    ensures var rest := RemoveKey(MockBillingMethods, IdOf, "2");
      var after := rest + [WithId(d, LengthId(|rest|))];
      LengthId(|rest|) == "5" && !UniqueKeys(after, IdOf)
  {
    MockBillingMethodsWellFormed();
    var rest := RemoveKey(MockBillingMethods, IdOf, "2");
    AddAfterRemoveReusesId(MockBillingMethods, IdOf, 1, WithId(d, LengthId(|rest|)));
  }

  class BillingState {
    var billingMethods: seq<UiBillingMethod>

    constructor ()
      ensures billingMethods == MockBillingMethods
    {
      billingMethods := MockBillingMethods;
    }

    /** `handleAddBillingMethod`: append the draft with id `String(length + 1)`. */
    method AddBillingMethod(draft: MethodDraft)
      modifies this
      ensures |billingMethods| == |old(billingMethods)| + 1
      ensures billingMethods[..|old(billingMethods)|] == old(billingMethods)
      ensures billingMethods[|billingMethods| - 1] == WithId(draft, DecimalString(|old(billingMethods)| + 1))
      ensures IdsArePositions(old(billingMethods), IdOf) ==> IdsArePositions(billingMethods, IdOf)
      ensures AllFollowPackageRule(old(billingMethods)) && PackageFieldsRule(draft.kind, draft.packageHours, draft.overageRate)
        ==> AllFollowPackageRule(billingMethods)
    {
      var m := WithId(draft, LengthId(|billingMethods|));
      if IdsArePositions(billingMethods, IdOf) {
        PositionalIds(billingMethods, IdOf, m);
      }
      billingMethods := billingMethods + [m];
    }

    /** An add whose id is one more than the largest in use, so it never repeats one; on
        a list nothing was deleted from, it assigns the same id as `AddBillingMethod`. */
    method AddBillingMethodWithFreshId(draft: MethodDraft)
      requires NumericKeys(billingMethods, IdOf)
      modifies this
      ensures billingMethods == old(billingMethods) + [WithId(draft, FreshId(old(billingMethods), IdOf))]
      ensures NumericKeys(billingMethods, IdOf)
      ensures UniqueKeys(old(billingMethods), IdOf) ==> UniqueKeys(billingMethods, IdOf)
      ensures IdsArePositions(old(billingMethods), IdOf) ==>
        billingMethods[|billingMethods| - 1].id == DecimalString(|old(billingMethods)| + 1)
    {
      var m := WithId(draft, FreshId(billingMethods, IdOf));
      FreshAppend(billingMethods, IdOf, m);
      billingMethods := billingMethods + [m];
    }

    /** `handleDeleteBillingMethod`: keep the methods whose id differs. */
    method DeleteBillingMethod(id: string)
      modifies this
      ensures billingMethods == RemoveKey(old(billingMethods), IdOf, id)
      ensures forall i :: 0 <= i < |billingMethods| ==> billingMethods[i].id != id && billingMethods[i] in old(billingMethods)
      ensures forall i :: 0 <= i < |old(billingMethods)| && old(billingMethods)[i].id != id ==>
        old(billingMethods)[i] in billingMethods
      ensures (forall i :: 0 <= i < |old(billingMethods)| ==> old(billingMethods)[i].id != id) ==>
        billingMethods == old(billingMethods)
      ensures AllFollowPackageRule(old(billingMethods)) ==> AllFollowPackageRule(billingMethods)
    {
      RemoveKeyMeaning(billingMethods, [], IdOf, id);
      billingMethods := RemoveKey(billingMethods, IdOf, id);
    }
  }
}
