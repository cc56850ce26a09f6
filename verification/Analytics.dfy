/** The daily summary (app/analytics/service.py). */
module Analytics {
  import opened Common
  import opened TransactionStates
  import opened TransactionRepository

  datatype Summary = Summary(
    date: int, totalTransactions: nat, completedTransactions: nat, failedTransactions: nat,
    pendingTransactions: nat, totalRevenue: int)

  function TotalAmount(rows: Rows): int {
    if rows == [] then 0 else rows[0].fields.amount + TotalAmount(rows[1..])
  }

  class AnalyticsService {
    const repository: InMemoryTransactionRepository

    constructor (repository: InMemoryTransactionRepository)
      ensures this.repository == repository
    {
      this.repository := repository;
    }

    function GetTodaySummary(now: Time): Summary
      reads repository
    {
      SummaryOf(repository.transactions, DateOf(now))
    }
  }

  function SummaryOf(rows: Rows, today: int): Summary {
    var transactions := CreatedOn(rows, today);
    var completed := WithStatus(transactions, Completed);
    Summary(today, |transactions|, |completed|, |WithStatus(transactions, Failed)|,
            |WithStatus(transactions, Pending)|, TotalAmount(completed))
  }

  /** What one row adds to the revenue of a day. */
  function Contribution(row: Transaction, date: int): int {
    if DateOf(row.createdAt) == date && row.status == Completed then row.fields.amount else 0
  }

  function Revenue(rows: Rows, date: int): int {
    if rows == [] then 0 else Contribution(rows[0], date) + Revenue(rows[1..], date)
  }

  /** The reported revenue is the sum over all rows of what each one adds. */
  lemma {:induction false} SummaryRevenue(rows: Rows, date: int)
    ensures SummaryOf(rows, date).totalRevenue == Revenue(rows, date)
  {
    if rows == [] {
    } else {
      SummaryRevenue(rows[1..], date);
      var rest := CreatedOn(rows[1..], date);
      if DateOf(rows[0].createdAt) == date {
        assert CreatedOn(rows, date) == [rows[0]] + rest;
        assert CreatedOn(rows, date)[1..] == rest;
        if rows[0].status == Completed {
          assert WithStatus(CreatedOn(rows, date), Completed)[1..] == WithStatus(rest, Completed);
        } else {
          assert WithStatus(CreatedOn(rows, date), Completed) == WithStatus(rest, Completed);
        }
      } else {
        assert CreatedOn(rows, date) == rest;
      }
    }
  }

  /** How many rows of a day have a status. */
  function Tally(rows: Rows, date: int, status: Status): nat {
    if rows == [] then 0
    else (if DateOf(rows[0].createdAt) == date && rows[0].status == status then 1 else 0) + Tally(rows[1..], date, status)
  }

  lemma {:induction false} TallyIsLength(rows: Rows, date: int, status: Status)
    ensures |WithStatus(CreatedOn(rows, date), status)| == Tally(rows, date, status)
  {
    if rows == [] {
    } else {
      TallyIsLength(rows[1..], date, status);
      var rest := CreatedOn(rows[1..], date);
      if DateOf(rows[0].createdAt) == date {
        assert CreatedOn(rows, date)[1..] == rest;
      } else {
        assert CreatedOn(rows, date) == rest;
      }
    }
  }

  /** How many rows were created on a day. */
  function DayTotal(rows: Rows, date: int): nat {
    if rows == [] then 0 else (if DateOf(rows[0].createdAt) == date then 1 else 0) + DayTotal(rows[1..], date)
  }

  lemma {:induction false} DayIsLength(rows: Rows, date: int)
    ensures |CreatedOn(rows, date)| == DayTotal(rows, date)
  {
    if rows == [] {
    } else {
      DayIsLength(rows[1..], date);
    }
  }

  /** Each count of the summary is the number of the day's rows with that status. */
  lemma SummaryCounts(rows: Rows, date: int)
    ensures var summary := SummaryOf(rows, date);
      && summary.date == date && summary.totalTransactions == DayTotal(rows, date)
      && summary.completedTransactions == Tally(rows, date, Completed)
      && summary.failedTransactions == Tally(rows, date, Failed)
      && summary.pendingTransactions == Tally(rows, date, Pending)
  {
    DayIsLength(rows, date);
    TallyIsLength(rows, date, Completed);
    TallyIsLength(rows, date, Failed);
    TallyIsLength(rows, date, Pending);
  }

  lemma {:induction false} RevenueAppend(rows: Rows, row: Transaction, date: int)
    ensures Revenue(rows + [row], date) == Revenue(rows, date) + Contribution(row, date)
  {
    if rows == [] {
      assert rows + [row] == [row];
    } else {
      assert (rows + [row])[1..] == rows[1..] + [row];
      RevenueAppend(rows[1..], row, date);
    }
  }

  lemma {:induction false} RevenueReplace(rows: Rows, i: nat, row: Transaction, date: int)
    requires i < |rows|
    ensures Revenue(rows[i := row], date)
         == Revenue(rows, date) - Contribution(rows[i], date) + Contribution(row, date)
  {
    if i == 0 {
      assert rows[i := row][1..] == rows[1..];
    } else {
      assert rows[i := row][1..] == rows[1..][i - 1 := row];
      RevenueReplace(rows[1..], i - 1, row, date);
    }
  }

  /** With only these three statuses around, the counts add up to the total. */
  lemma {:induction false} CountsAddUp(rows: Rows)
    requires forall i :: 0 <= i < |rows| ==> rows[i].status in {Pending, Completed, Failed}
    ensures |rows| == |WithStatus(rows, Completed)| + |WithStatus(rows, Failed)| + |WithStatus(rows, Pending)|
  {
    if rows == [] {
    } else {
      CountsAddUp(rows[1..]);
    }
  }

  lemma {:induction false} CreatedOnIsPart(rows: Rows, date: int)
    ensures forall r :: r in CreatedOn(rows, date) ==> r in rows
  {
    if rows == [] {
    } else {
      CreatedOnIsPart(rows[1..], date);
    }
  }
}
