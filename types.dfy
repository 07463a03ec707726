/** Record shapes of the loan tracker (types/index.ts).
    Dates are day numbers (see module Dates); amounts and rates are reals. */
module Types {

  datatype Option<+T> = None | Some(value: T)

  /** "taken" moves cash to the borrower, "returned" moves it back. */
  datatype TxType = Taken | Returned

  datatype InterestMethod = Simple | SimpleWithRepay | Compound

  datatype Transaction = Transaction(id: string, date: int, kind: TxType, amount: real)

  datatype Borrower = Borrower(
    id: string,
    userId: string,
    name: string,
    interestRate: real,          // percent per week
    interestMethod: InterestMethod,
    transactions: seq<Transaction>,
    createdAt: string,
    updatedAt: string)

  datatype WeekBreakdown = WeekBreakdown(
    week: int,
    startDate: int,
    endDate: int,
    principal: real,
    interest: real,
    balance: real)

  datatype InterestCalculation = InterestCalculation(
    calcMethod: InterestMethod,
    totalInterest: real,
    principal: real,
    totalAmount: real,
    breakdown: Option<seq<WeekBreakdown>>)

  datatype InterestCalculations = InterestCalculations(
    simple: InterestCalculation,
    simpleWithRepay: InterestCalculation,
    compound: InterestCalculation)

  /** The derived daily rate of the source is not part of this model. */
  datatype BorrowerSummary = BorrowerSummary(
    totalTaken: real,
    totalReturned: real,
    currentBalance: real,
    interestCalculations: InterestCalculations)

  datatype User = User(id: string, username: string, email: string, password: string, createdAt: string)
}
