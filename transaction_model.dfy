/** The data-access object for the transaction log: one user's history. */
module TransactionLog {
  import opened Interfaces
  import opened Seqs
  import opened Database

  class TransactionModel {
    const db: Db

    constructor (db: Db)
      ensures this.db == db
    {
      this.db := db;
    }

    /** Every log record owned by `userId` and no other, in log order. */
    function GetUserTransactions(userId: nat): (r: seq<Transaction>)
      reads db
      ensures forall t :: t in r ==> t.userId == userId
      ensures forall t :: t in db.transactions && t.userId == userId ==> t in r
      ensures forall t :: t in r ==> t in db.transactions
      ensures |r| <= |db.transactions|
      ensures r == [] <==> forall t :: t in db.transactions ==> t.userId != userId
    {
      FilterWhere(db.transactions, (t: Transaction) => t.userId == userId)
    }
  }
}
