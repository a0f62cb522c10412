/** Types every contract of the protocol shares (contracts/shared/src/types.rs). */
module Shared {
  import opened Host

  datatype CreditType = Carbon | Biodiversity | Basket | BlueCarbon

  datatype BondStatus = Active | Matured | Defaulted

  datatype BondConfig = BondConfig(
    projectId: Hash,
    faceValue: int,
    couponSchedule: seq<nat>,
    creditType: CreditType,
    maturityDate: nat,
    totalSupply: int)

  datatype ProjectStatus = Pending | Approved | Rejected | Inactive

  datatype ReportStatus = ReportPending | Verified | Challenged | ReportRejected

  datatype BiodiversityMetrics = Absent | Present(habitat: int, species: int, units: int)

  /** What CouponEngine reads of an oracle report. */
  datatype Report = Report(
    projectHash: Hash,
    periodStart: nat,
    periodEnd: nat,
    carbonSequestered: int,
    biodiversity: BiodiversityMetrics,
    status: ReportStatus)

  /** The oracle refuses reports with negative figures when they are submitted
      (contracts/oracle-consumer/src/lib.rs:384-391), so every stored report meets this. */
  predicate NonNegativeReport(r: Report) {
    && r.carbonSequestered >= 0
    && (r.biodiversity.Present? ==>
          r.biodiversity.habitat >= 0 && r.biodiversity.species >= 0 && r.biodiversity.units >= 0)
  }

  type Oracle = map<nat, Report>

  predicate Honest(oracle: Oracle) {
    forall id :: id in oracle ==> NonNegativeReport(oracle[id])
  }
}
