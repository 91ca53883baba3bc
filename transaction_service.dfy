/** The service behind the transaction-history endpoint. */
module TransactionHistory {
  import opened Interfaces
  import opened Constants
  import opened TransactionLog

  class TransactionService {
    const transactionModel: TransactionModel

    constructor (transactionModel: TransactionModel)
      ensures this.transactionModel == transactionModel
    {
      this.transactionModel := transactionModel;
    }

    /** Always a 200 "success" carrying exactly the model's list, which may be empty. */
    function GetAllUserTransactions(userId: nat): (r: TransactionsApiResponse)
      reads transactionModel.db
      ensures r.statusCode == 200 && r.message == SuccessMsg
      ensures r.transactions == transactionModel.GetUserTransactions(userId)
    {
      TransactionsApiResponse(SuccessMsg, 200, transactionModel.GetUserTransactions(userId))
    }
  }

  /** A user without records still gets 200 with an empty list, never a 404. */
  lemma EmptyHistoryIsSuccess(service: TransactionService, userId: nat)
    requires forall t :: t in service.transactionModel.db.transactions ==> t.userId != userId
    ensures service.GetAllUserTransactions(userId) == TransactionsApiResponse(SuccessMsg, 200, [])
  {
  }
}
